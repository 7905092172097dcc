// The log-statistics collector: a cache keyed by the size a log had when it was last probed.
module LogStats {
  import opened JobModel
  import opened Options
  import opened Sequences

  newtype byte = x: int | 0 <= x < 256

  type Body = seq<byte>

  const MAX_LOG_BYTES: nat := 20 * 1024 * 1024

  const RUNNING_REASONS: set<string> := {"", "N/A"}

  // What the log parser returns; finishReason is "N/A" while the job runs.
  datatype LogStats = LogStats(pages: Option<int>, items: Option<int>, runtime: string, finishReason: string,
                               firstLogTime: string, latestLogTime: string)

  // A range request answered with a size, a server that ignored the range, or nothing usable.
  datatype Probe = NoAnswer | Ranged(size: nat) | Whole(body: Body)

  datatype StatsRow = StatsRow(ext: string, size: nat, stats: Option<LogStats>)

  // What the network answers while one job is visited.
  datatype Net = Net(probe: string -> Probe, fetch: string -> Option<Body>)

  function SizeOf(p: Probe): Option<nat> {
    match p
    case NoAnswer => None
    case Ranged(n) => Some(n)
    case Whole(b) => Some(|b|)
  }

  // The first extension that answers.
  function Discover(exts: seq<string>, net: Net): Option<string> {
    if exts == [] then None
    else if SizeOf(net.probe(exts[0])).Some? then Some(exts[0])
    else Discover(exts[1..], net)
  }

  // The extension a visit uses: the known one while it answers.
  function Chosen(row: Option<StatsRow>, exts: seq<string>, net: Net): Option<string> {
    if row.Some? && SizeOf(net.probe(row.value.ext)).Some? then Some(row.value.ext) else Discover(exts, net)
  }

  predicate FinishedParsed(row: Option<StatsRow>) {
    row.Some? && row.value.stats.Some? && row.value.stats.value.finishReason !in RUNNING_REASONS
  }

  datatype Outcome =
    | Unreached
    | Skipped
    | TooBig(row: StatsRow)
    | Unfetched(row: StatsRow)
    | Parsed(row: StatsRow, body: Body)

  // One job's visit.
  function Visit(row: Option<StatsRow>, running: bool, exts: seq<string>, net: Net, parse: Body -> LogStats): Outcome {
    var ext := Chosen(row, exts, net);
    if ext.None? then Unreached
    else
      var p := net.probe(ext.value);
      if SizeOf(p).None? then Unreached
      else
        var size := SizeOf(p).value;
        if row.Some? && row.value.size == size && (FinishedParsed(row) || !running) then Skipped
        else
          var touched := StatsRow(ext.value, size, if row.Some? then row.value.stats else None);
          if size > MAX_LOG_BYTES then TooBig(touched)
          else
            var body := if p.Whole? then Some(p.body) else net.fetch(ext.value);
            if body.None? then Unfetched(touched)
            else Parsed(touched.(stats := Some(parse(body.value))), body.value)
  }

  function RowAfter(row: Option<StatsRow>, o: Outcome): Option<StatsRow> {
    match o
    case Unreached => row
    case Skipped => row
    case TooBig(r) => Some(r)
    case Unfetched(r) => Some(r)
    case Parsed(r, _) => Some(r)
  }

  // ---- what a visit does, branch by branch ----

  lemma {:induction false} DiscoverIsFirst(exts: seq<string>, net: Net)
    ensures Discover(exts, net) == None <==> forall i :: 0 <= i < |exts| ==> net.probe(exts[i]) == NoAnswer
    ensures forall i :: 0 <= i < |exts| && net.probe(exts[i]) != NoAnswer &&
                        (forall j :: 0 <= j < i ==> net.probe(exts[j]) == NoAnswer) ==>
              Discover(exts, net) == Some(exts[i])
  {
    if exts != [] {
      var rest := exts[1..];
      DiscoverIsFirst(rest, net);
      assert forall i :: 0 <= i < |rest| ==> rest[i] == exts[i + 1];
      assert exts[0] in exts;
    }
  }

  // The log answers under e: under the extension known for the job, or, when that does not
  // answer, under the first one in the configured order that does.
  predicate AnswersUnder(row: Option<StatsRow>, exts: seq<string>, net: Net, e: string) {
    if row.Some? && net.probe(row.value.ext) != NoAnswer then e == row.value.ext
    else
      exists i :: 0 <= i < |exts| && exts[i] == e && net.probe(e) != NoAnswer &&
                  forall j :: 0 <= j < i ==> net.probe(exts[j]) == NoAnswer
  }

  lemma ChosenAnswers(row: Option<StatsRow>, exts: seq<string>, net: Net, e: string)
    requires AnswersUnder(row, exts, net, e)
    ensures Chosen(row, exts, net) == Some(e) && net.probe(e) != NoAnswer
  {
    DiscoverIsFirst(exts, net);
  }

  // A log that answers nowhere is passed over.
  lemma UnreachedIff(row: Option<StatsRow>, running: bool, exts: seq<string>, net: Net, parse: Body -> LogStats)
    ensures Visit(row, running, exts, net, parse).Unreached? <==>
            && (row.Some? ==> net.probe(row.value.ext) == NoAnswer)
            && forall i :: 0 <= i < |exts| ==> net.probe(exts[i]) == NoAnswer
    ensures RowAfter(row, Unreached) == row
  {
    DiscoverIsFirst(exts, net);
    FoundAnswers(exts, net);
  }

  lemma {:induction false} FoundAnswers(exts: seq<string>, net: Net)
    ensures Discover(exts, net).Some? ==> net.probe(Discover(exts, net).value) != NoAnswer
  {
    if exts != [] {
      FoundAnswers(exts[1..], net);
    }
  }

  // A log is left alone exactly when it still has its recorded size and the job has ended or
  // its statistics say how it finished; so a running job's log of the same size is parsed
  // again until they do.
  lemma SkippedIff(row: Option<StatsRow>, running: bool, exts: seq<string>, net: Net, parse: Body -> LogStats,
                   e: string)
    requires AnswersUnder(row, exts, net, e)
    ensures Visit(row, running, exts, net, parse).Skipped? <==>
            && row.Some?
            && (net.probe(e) == Ranged(row.value.size) ||
                (net.probe(e).Whole? && |net.probe(e).body| == row.value.size))
            && (!running || (row.value.stats.Some? && row.value.stats.value.finishReason != "" &&
                             row.value.stats.value.finishReason != "N/A"))
    ensures RowAfter(row, Skipped) == row
  {
    ChosenAnswers(row, exts, net, e);
  }

  // Otherwise the size is recorded, and the statistics become those of the body the probe
  // brought along or, of a ranged answer, of the fetched one; a log of more than 20 MiB and one
  // that cannot be fetched keep the old statistics.
  lemma VisitedIs(row: Option<StatsRow>, running: bool, exts: seq<string>, net: Net, parse: Body -> LogStats,
                  e: string, size: nat)
    requires AnswersUnder(row, exts, net, e)
    requires net.probe(e) == Ranged(size) || (net.probe(e).Whole? && |net.probe(e).body| == size)
    ensures var o := Visit(row, running, exts, net, parse);
            var kept := if row.Some? then row.value.stats else None;
            !o.Skipped? ==>
              RowAfter(row, o) == Some(StatsRow(e, size,
                if size > 20971520 then kept
                else if net.probe(e).Whole? then Some(parse(net.probe(e).body))
                else if net.fetch(e).Some? then Some(parse(net.fetch(e).value))
                else kept))
    ensures var o := Visit(row, running, exts, net, parse);
            && (o.Parsed? <==> !o.Skipped? && size <= 20971520 && (net.probe(e).Whole? || net.fetch(e).Some?))
            && (o.Parsed? ==> Some(o.body) == if net.probe(e).Whole? then Some(net.probe(e).body) else net.fetch(e))
  {
    ChosenAnswers(row, exts, net, e);
  }

  // ---- the collector ----

  datatype Listing = Listing(key: Key, running: bool, net: Net)

  function RowOf(rows: map<Key, StatsRow>, k: Key): Option<StatsRow> {
    if k in rows then Some(rows[k]) else None
  }

  function Put(rows: map<Key, StatsRow>, k: Key, r: Option<StatsRow>): map<Key, StatsRow> {
    if r.Some? then rows[k := r.value] else rows
  }

  // All rows after the started jobs of one listing have been visited in order, and how many
  // logs were parsed on the way.
  function Collected(rows: map<Key, StatsRow>, jobs: seq<Listing>, exts: seq<string>, parse: Body -> LogStats)
    : (map<Key, StatsRow>, nat)
  {
    if jobs == [] then (rows, 0)
    else
      var (p, n) := Collected(rows, jobs[..|jobs| - 1], exts, parse);
      var j := jobs[|jobs| - 1];
      var o := Visit(RowOf(p, j.key), j.running, exts, j.net, parse);
      (Put(p, j.key, RowAfter(RowOf(p, j.key), o)), if o.Parsed? then n + 1 else n)
  }

  class Collector {
    const exts: seq<string>
    const parse: Body -> LogStats
    var rows: map<Key, StatsRow>
    var parsed: nat

    constructor (exts: seq<string>, parse: Body -> LogStats, rows: map<Key, StatsRow>)
      ensures this.exts == exts && this.parse == parse && this.rows == rows && parsed == 0
    {
      this.exts, this.parse, this.rows, parsed := exts, parse, rows, 0;
    }

    method FindExtension(row: Option<StatsRow>, net: Net) returns (ext: Option<string>)
      ensures ext == Chosen(row, exts, net)
    {
      ext := None;
      if row.Some? && SizeOf(net.probe(row.value.ext)).Some? {
        ext := Some(row.value.ext);
      }
      var i := 0;
      while ext.None? && i < |exts|
        invariant i <= |exts|
        invariant ext.Some? ==> ext == Chosen(row, exts, net)
        invariant ext.None? ==> Chosen(row, exts, net) == Discover(exts[i..], net)
      {
        if SizeOf(net.probe(exts[i])).Some? {
          ext := Some(exts[i]);
        }
        i := i + 1;
      }
    }

    // The size is recorded before the log is fetched.
    method VisitJob(job: Listing)
      modifies this
      ensures var o := Visit(RowOf(old(rows), job.key), job.running, exts, job.net, parse);
              && rows == Put(old(rows), job.key, RowAfter(RowOf(old(rows), job.key), o))
              && parsed == old(parsed) + if o.Parsed? then 1 else 0
    {
      var row := RowOf(rows, job.key);
      var ext := FindExtension(row, job.net);
      if ext.None? {
        return;
      }
      var p := job.net.probe(ext.value);
      var size := SizeOf(p);
      if size.None? {
        return;
      }
      if row.Some? && row.value.size == size.value && (FinishedParsed(row) || !job.running) {
        assert row.Some? ==> rows == rows[job.key := row.value];
        return;
      }
      var touched := StatsRow(ext.value, size.value, if row.Some? then row.value.stats else None);
      rows := rows[job.key := touched];
      if size.value > MAX_LOG_BYTES {
        return;
      }
      var body := if p.Whole? then Some(p.body) else job.net.fetch(ext.value);
      if body.None? {
        return;
      }
      rows := rows[job.key := touched.(stats := Some(parse(body.value)))];
      parsed := parsed + 1;
    }

    method CollectServer(jobs: seq<Listing>)
      modifies this
      ensures (rows, parsed) ==
              (Collected(old(rows), jobs, exts, parse).0, old(parsed) + Collected(old(rows), jobs, exts, parse).1)
    {
      for i := 0 to |jobs|
        invariant rows == Collected(old(rows), jobs[..i], exts, parse).0
        invariant parsed == old(parsed) + Collected(old(rows), jobs[..i], exts, parse).1
      {
        Snoc(jobs, i);
        VisitJob(jobs[i]);
      }
      Sequences.Whole(jobs);
    }
  }

  // ---- each job's row depends on its own visits only ----

  function Own(jobs: seq<Listing>, k: Key): seq<Listing> {
    if jobs == [] then []
    else
      var front, last := Own(jobs[..|jobs| - 1], k), jobs[|jobs| - 1];
      if last.key == k then front + [last] else front
  }

  function RowThrough(row: Option<StatsRow>, visits: seq<Listing>, exts: seq<string>,
                      parse: Body -> LogStats): Option<StatsRow> {
    if visits == [] then row
    else
      var p, v := RowThrough(row, visits[..|visits| - 1], exts, parse), visits[|visits| - 1];
      RowAfter(p, Visit(p, v.running, exts, v.net, parse))
  }

  lemma {:induction false} JobsAreIndependent(rows: map<Key, StatsRow>, jobs: seq<Listing>, exts: seq<string>,
                                              parse: Body -> LogStats, k: Key)
    ensures RowOf(Collected(rows, jobs, exts, parse).0, k) == RowThrough(RowOf(rows, k), Own(jobs, k), exts, parse)
  {
    if jobs != [] {
      var front, last := jobs[..|jobs| - 1], jobs[|jobs| - 1];
      JobsAreIndependent(rows, front, exts, parse, k);
      if last.key == k {
        assert (Own(front, k) + [last])[..|Own(front, k)|] == Own(front, k);
      }
    }
  }

  // ---- one job over time ----

  // A visit to a log that holds `before` when probed and `after` when fetched.
  datatype Moment = Moment(running: bool, before: Body, after: Body, reachable: bool, ranged: bool, fetched: bool)

  // The log lives under one extension.
  function NetOf(e: string, m: Moment): Net {
    Net(x => if x == e && m.reachable then (if m.ranged then Ranged(|m.before|) else Whole(m.before)) else NoAnswer,
        x => if x == e && m.fetched then Some(m.after) else None)
  }

  // The row, and the body its statistics were last computed from.
  datatype History = History(row: Option<StatsRow>, basis: Option<Body>)

  const UNSEEN := History(None, None)

  function See(h: History, m: Moment, e: string, exts: seq<string>, parse: Body -> LogStats): History {
    var o := Visit(h.row, m.running, exts, NetOf(e, m), parse);
    History(RowAfter(h.row, o), if o.Parsed? then Some(o.body) else h.basis)
  }

  function Follow(h: History, ms: seq<Moment>, e: string, exts: seq<string>, parse: Body -> LogStats): History {
    if ms == [] then h else See(Follow(h, ms[..|ms| - 1], e, exts, parse), ms[|ms| - 1], e, exts, parse)
  }

  // The row of a followed history is the row the collector keeps for such visits.
  lemma {:induction false} FollowIsRowThrough(ms: seq<Moment>, visits: seq<Listing>, e: string, exts: seq<string>,
                                              parse: Body -> LogStats)
    requires |visits| == |ms|
    requires forall i :: 0 <= i < |ms| ==> visits[i].running == ms[i].running && visits[i].net == NetOf(e, ms[i])
    ensures Follow(UNSEEN, ms, e, exts, parse).row == RowThrough(None, visits, exts, parse)
  {
    if ms != [] {
      FollowIsRowThrough(ms[..|ms| - 1], visits[..|ms| - 1], e, exts, parse);
    }
  }

  // Logs only grow, within a visit and from one visit to the next.
  predicate AppendOnly(ms: seq<Moment>) {
    && (forall i :: 0 <= i < |ms| ==> ms[i].before <= ms[i].after)
    && forall i, j :: 0 <= i < j < |ms| ==> ms[i].after <= ms[j].before
  }

  // What a history knows about a log that currently holds `log`.
  predicate Known(h: History, log: Body, e: string, parse: Body -> LogStats) {
    && (h.row.None? ==> h.basis.None?)
    && (h.row.Some? ==>
          && h.row.value.ext == e && h.row.value.size <= |log|
          && h.row.value.stats == (if h.basis.Some? then Some(parse(h.basis.value)) else None))
    && (h.basis.Some? ==> h.basis.value <= log)
  }

  // The statistics were computed from at least as much log as the recorded size.
  predicate Covers(h: History) {
    h.row.Some? ==> h.basis.Some? && |h.basis.value| >= h.row.value.size
  }

  lemma {:induction false} FindsOnly(e: string, exts: seq<string>, m: Moment)
    requires e in exts
    ensures Discover(exts, NetOf(e, m)) == if m.reachable then Some(e) else None
  {
    if exts[0] != e {
      FindsOnly(e, exts[1..], m);
    } else if !m.reachable {
      NothingAnswers(e, exts, m);
    }
  }

  lemma {:induction false} NothingAnswers(e: string, exts: seq<string>, m: Moment)
    requires !m.reachable
    ensures Discover(exts, NetOf(e, m)) == None
  {
    if exts != [] {
      NothingAnswers(e, exts[1..], m);
    }
  }

  lemma SeenExtension(h: History, m: Moment, e: string, exts: seq<string>)
    requires e in exts && (h.row.Some? ==> h.row.value.ext == e)
    ensures Chosen(h.row, exts, NetOf(e, m)) == if m.reachable then Some(e) else None
  {
    FindsOnly(e, exts, m);
  }

  lemma SeeKeepsKnown(h: History, log: Body, m: Moment, e: string, exts: seq<string>, parse: Body -> LogStats)
    requires e in exts && Known(h, log, e, parse) && log <= m.before <= m.after
    ensures Known(See(h, m, e, exts, parse), m.after, e, parse)
  {
    SeenExtension(h, m, e, exts);
    if h.basis.Some? {
      PrefixTransitive(h.basis.value, log, m.before);
      PrefixTransitive(h.basis.value, m.before, m.after);
    }
  }

  lemma PrefixTransitive(a: Body, b: Body, c: Body)
    requires a <= b <= c
    ensures a <= c
  {
  }

  function LogAfter(ms: seq<Moment>): Body {
    if ms == [] then [] else ms[|ms| - 1].after
  }

  lemma {:induction false} FollowKnows(ms: seq<Moment>, e: string, exts: seq<string>, parse: Body -> LogStats)
    requires e in exts && AppendOnly(ms)
    ensures Known(Follow(UNSEEN, ms, e, exts, parse), LogAfter(ms), e, parse)
  {
    if ms != [] {
      var front, m := ms[..|ms| - 1], ms[|ms| - 1];
      FollowKnows(front, e, exts, parse);
      assert LogAfter(front) <= m.before;
      SeeKeepsKnown(Follow(UNSEEN, front, e, exts, parse), LogAfter(front), m, e, exts, parse);
    }
  }

  // What visit i parsed, if it took the parse branch: the log was reached, not skipped, within
  // the limit, and its body was there.
  function BodyAt(ms: seq<Moment>, i: nat, e: string, exts: seq<string>, parse: Body -> LogStats): Option<Body>
    requires i < |ms|
  {
    var o := Visit(Follow(UNSEEN, ms[..i], e, exts, parse).row, ms[i].running, exts, NetOf(e, ms[i]), parse);
    if o.Parsed? then Some(o.body) else None
  }

  // Some visit parsed the log when it already had the length it has now.
  ghost predicate ParsedSince(ms: seq<Moment>, log: Body, e: string, exts: seq<string>, parse: Body -> LogStats) {
    exists i :: 0 <= i < |ms| && BodyOfLength(ms, i, |log|, e, exts, parse)
  }

  predicate BodyOfLength(ms: seq<Moment>, i: nat, n: nat, e: string, exts: seq<string>, parse: Body -> LogStats)
    requires i < |ms|
  {
    BodyAt(ms, i, e, exts, parse).Some? && |BodyAt(ms, i, e, exts, parse).value| == n
  }

  lemma BodyBefore(ms: seq<Moment>, i: nat, e: string, exts: seq<string>, parse: Body -> LogStats)
    requires i < |ms| - 1
    ensures BodyAt(ms[..|ms| - 1], i, e, exts, parse) == BodyAt(ms, i, e, exts, parse)
  {
    assert ms[..|ms| - 1][..i] == ms[..i];
  }

  // The last parse is some visit's.
  lemma {:induction false} BasisIsParsed(ms: seq<Moment>, e: string, exts: seq<string>, parse: Body -> LogStats)
    returns (i: nat)
    requires Follow(UNSEEN, ms, e, exts, parse).basis.Some?
    ensures i < |ms| && BodyAt(ms, i, e, exts, parse) == Follow(UNSEEN, ms, e, exts, parse).basis
  {
    var n := |ms| - 1;
    i := n;
    if BodyAt(ms, n, e, exts, parse).None? {
      i := BasisIsParsed(ms[..n], e, exts, parse);
      BodyBefore(ms, i, e, exts, parse);
    }
  }

  lemma SeeBasis(h: History, log: Body, m: Moment, e: string, exts: seq<string>, parse: Body -> LogStats)
    requires e in exts && Known(h, log, e, parse) && log <= m.before <= m.after
    ensures var now := See(h, m, e, exts, parse).basis;
            && (h.basis.Some? ==> now.Some? && |h.basis.value| <= |now.value|)
            && (now.Some? ==> |now.value| <= |m.after|)
  {
    SeenExtension(h, m, e, exts);
  }

  // No later parse sees less of the log.
  lemma {:induction false} ParsedIsKept(ms: seq<Moment>, i: nat, e: string, exts: seq<string>, parse: Body -> LogStats)
    requires e in exts && AppendOnly(ms) && i < |ms| && BodyAt(ms, i, e, exts, parse).Some?
    ensures var basis := Follow(UNSEEN, ms, e, exts, parse).basis;
            basis.Some? && |BodyAt(ms, i, e, exts, parse).value| <= |basis.value| <= |LogAfter(ms)|
  {
    var front, m := ms[..|ms| - 1], ms[|ms| - 1];
    assert ms == front + [m];
    AppendOnlyFront(front, m);
    FollowKnows(front, e, exts, parse);
    SeeBasis(Follow(UNSEEN, front, e, exts, parse), LogAfter(front), m, e, exts, parse);
    if i < |ms| - 1 {
      BodyBefore(ms, i, e, exts, parse);
      ParsedIsKept(front, i, e, exts, parse);
    }
  }

  lemma ParsedSinceIsBasis(ms: seq<Moment>, m: Moment, e: string, exts: seq<string>, parse: Body -> LogStats)
    requires e in exts && AppendOnly(ms + [m])
    ensures ParsedSince(ms, m.before, e, exts, parse) <==>
            Follow(UNSEEN, ms, e, exts, parse).basis == Some(m.before)
  {
    var h := Follow(UNSEEN, ms, e, exts, parse);
    AppendOnlyFront(ms, m);
    FollowKnows(ms, e, exts, parse);
    if h.basis.Some? {
      PrefixTransitive(h.basis.value, LogAfter(ms), m.before);
      var i := BasisIsParsed(ms, e, exts, parse);
      assert h.basis.value == m.before ==> BodyOfLength(ms, i, |m.before|, e, exts, parse);
    }
    if ParsedSince(ms, m.before, e, exts, parse) {
      var i :| 0 <= i < |ms| && BodyOfLength(ms, i, |m.before|, e, exts, parse);
      ParsedIsKept(ms, i, e, exts, parse);
      assert h.basis.value == m.before;
    }
  }

  // A skipped visit leaves statistics of exactly the current log if some visit took the parse
  // branch when the log already had its present length. If none did, the statistics are those
  // of a shorter log, or there are none; so they are wrong unless the parser cannot tell the
  // two logs apart.
  lemma SkipIsSoundIff(ms: seq<Moment>, m: Moment, e: string, exts: seq<string>, parse: Body -> LogStats)
    requires e in exts && AppendOnly(ms + [m])
    requires var row := Follow(UNSEEN, ms, e, exts, parse).row;
             Visit(row, m.running, exts, NetOf(e, m), parse).Skipped?
    ensures var stats := Follow(UNSEEN, ms, e, exts, parse).row.value.stats;
            if ParsedSince(ms, m.before, e, exts, parse) then stats == Some(parse(m.before))
            else stats == None || exists b :: b < m.before && stats == Some(parse(b))
    ensures (forall b :: b < m.before ==> parse(b) != parse(m.before)) ==>
              (Follow(UNSEEN, ms, e, exts, parse).row.value.stats == Some(parse(m.before)) <==>
               ParsedSince(ms, m.before, e, exts, parse))
  {
    var h := Follow(UNSEEN, ms, e, exts, parse);
    AppendOnlyFront(ms, m);
    FollowKnows(ms, e, exts, parse);
    ParsedSinceIsBasis(ms, m, e, exts, parse);
    if h.basis.Some? {
      PrefixTransitive(h.basis.value, LogAfter(ms), m.before);
      assert h.basis.value != m.before ==> h.basis.value < m.before;
    }
  }

  // In terms of the row: the last parse covered the recorded size.
  lemma SkippedCovers(ms: seq<Moment>, m: Moment, e: string, exts: seq<string>, parse: Body -> LogStats)
    requires e in exts && AppendOnly(ms + [m])
    requires var row := Follow(UNSEEN, ms, e, exts, parse).row;
             Visit(row, m.running, exts, NetOf(e, m), parse).Skipped?
    ensures Covers(Follow(UNSEEN, ms, e, exts, parse)) ==> ParsedSince(ms, m.before, e, exts, parse)
  {
    AppendOnlyFront(ms, m);
    FollowKnows(ms, e, exts, parse);
    ParsedSinceIsBasis(ms, m, e, exts, parse);
    SkippedBasis(Follow(UNSEEN, ms, e, exts, parse), LogAfter(ms), m, e, exts, parse);
  }

  lemma SkippedBasis(h: History, log: Body, m: Moment, e: string, exts: seq<string>, parse: Body -> LogStats)
    requires e in exts && Known(h, log, e, parse) && log <= m.before
    requires Visit(h.row, m.running, exts, NetOf(e, m), parse).Skipped?
    ensures Covers(h) ==> h.basis == Some(m.before)
  {
    SeenExtension(h, m, e, exts);
    if h.basis.Some? {
      PrefixTransitive(h.basis.value, log, m.before);
      assert |h.basis.value| >= |m.before| ==> h.basis.value == m.before;
    }
  }

  lemma AppendOnlyFront(ms: seq<Moment>, m: Moment)
    requires AppendOnly(ms + [m])
    ensures AppendOnly(ms) && LogAfter(ms) <= m.before <= m.after
  {
    var all := ms + [m];
    assert all[|ms|] == m;
    forall i | 0 <= i < |ms| ensures ms[i].before <= ms[i].after {
      assert all[i] == ms[i];
    }
    forall i, j | 0 <= i < j < |ms| ensures ms[i].after <= ms[j].before {
      assert all[i] == ms[i] && all[j] == ms[j];
    }
    if ms != [] {
      assert all[|ms| - 1] == ms[|ms| - 1];
    }
  }

  // No fetch failed and no log was too big.
  predicate Untroubled(ms: seq<Moment>) {
    forall i :: 0 <= i < |ms| ==> |ms[i].before| <= MAX_LOG_BYTES && (ms[i].ranged ==> ms[i].fetched)
  }

  lemma SeeCovers(h: History, m: Moment, e: string, exts: seq<string>, parse: Body -> LogStats)
    requires e in exts && (h.row.Some? ==> h.row.value.ext == e) && Covers(h)
    requires m.before <= m.after && |m.before| <= MAX_LOG_BYTES && (m.ranged ==> m.fetched)
    ensures Covers(See(h, m, e, exts, parse))
  {
    SeenExtension(h, m, e, exts);
  }

  lemma {:induction false} UntroubledCovers(ms: seq<Moment>, e: string, exts: seq<string>, parse: Body -> LogStats)
    requires e in exts && AppendOnly(ms) && Untroubled(ms)
    ensures Covers(Follow(UNSEEN, ms, e, exts, parse))
  {
    if ms != [] {
      var front, m := ms[..|ms| - 1], ms[|ms| - 1];
      var h := Follow(UNSEEN, front, e, exts, parse);
      UntroubledCovers(front, e, exts, parse);
      FollowKnows(front, e, exts, parse);
      SeeCovers(h, m, e, exts, parse);
      assert Follow(UNSEEN, ms, e, exts, parse) == See(h, m, e, exts, parse);
    }
  }

  // Without such trouble every skip is sound.
  lemma UntroubledSkipsAreSound(ms: seq<Moment>, m: Moment, e: string, exts: seq<string>, parse: Body -> LogStats)
    requires e in exts && AppendOnly(ms + [m]) && Untroubled(ms)
    requires var h := Follow(UNSEEN, ms, e, exts, parse); Visit(h.row, m.running, exts, NetOf(e, m), parse).Skipped?
    ensures Follow(UNSEEN, ms, e, exts, parse).row.value.stats == Some(parse(m.before))
  {
    AppendOnlyFront(ms, m);
    UntroubledCovers(ms, e, exts, parse);
    SkippedCovers(ms, m, e, exts, parse);
    SkipIsSoundIff(ms, m, e, exts, parse);
  }

  // ---- after the log has stopped growing ----

  // The job is over and its log has the same content whenever it is probed.
  predicate Frozen(ms: seq<Moment>, log: Body) {
    forall i :: 0 <= i < |ms| ==> !ms[i].running && ms[i].before == log
  }

  function Parses(h: History, ms: seq<Moment>, e: string, exts: seq<string>, parse: Body -> LogStats): nat {
    if ms == [] then 0
    else
      var front, m := ms[..|ms| - 1], ms[|ms| - 1];
      var p := Follow(h, front, e, exts, parse);
      Parses(h, front, e, exts, parse) + if Visit(p.row, m.running, exts, NetOf(e, m), parse).Parsed? then 1 else 0
  }

  // Which visits parse.
  function ParseFlags(h: History, ms: seq<Moment>, e: string, exts: seq<string>, parse: Body -> LogStats): seq<bool> {
    seq(|ms|, i requires 0 <= i < |ms| =>
          Visit(Follow(h, ms[..i], e, exts, parse).row, ms[i].running, exts, NetOf(e, ms[i]), parse).Parsed?)
  }

  lemma ParseFlagsSnoc(h: History, front: seq<Moment>, m: Moment, e: string, exts: seq<string>,
                       parse: Body -> LogStats, parsed: bool)
    requires parsed == Visit(Follow(h, front, e, exts, parse).row, m.running, exts, NetOf(e, m), parse).Parsed?
    ensures ParseFlags(h, front + [m], e, exts, parse) == ParseFlags(h, front, e, exts, parse) + [parsed]
  {
    forall i | 0 <= i < |front| ensures (front + [m])[..i] == front[..i] && (front + [m])[i] == front[i] {
    }
    assert (front + [m])[..|front|] == front;
  }

  // Parses counts exactly these.
  lemma {:induction false} ParsesAre(h: History, ms: seq<Moment>, e: string, exts: seq<string>, parse: Body -> LogStats)
    returns (at: seq<nat>)
    ensures Marks(at, ParseFlags(h, ms, e, exts, parse)) && |at| == Parses(h, ms, e, exts, parse)
  {
    if ms == [] {
      at := [];
    } else {
      var front, m := ms[..|ms| - 1], ms[|ms| - 1];
      assert ms == front + [m];
      at := ParsesAre(h, front, e, exts, parse);
      var parsed := Visit(Follow(h, front, e, exts, parse).row, m.running, exts, NetOf(e, m), parse).Parsed?;
      ParseFlagsSnoc(h, front, m, e, exts, parse, parsed);
      MarksSnoc(at, ParseFlags(h, front, e, exts, parse), parsed);
      if parsed {
        at := at + [|front|];
      }
    }
  }

  // A final log whose size has been recorded is never looked at again, so a failed fetch or
  // an oversized log leaves its statistics behind for good.
  lemma {:induction false} RecordedIsFinal(h: History, ms: seq<Moment>, log: Body, e: string, exts: seq<string>,
                                           parse: Body -> LogStats)
    requires e in exts && Frozen(ms, log)
    requires h.row.Some? && h.row.value.ext == e && h.row.value.size == |log|
    ensures Follow(h, ms, e, exts, parse) == h && Parses(h, ms, e, exts, parse) == 0
  {
    if ms != [] {
      RecordedIsFinal(h, ms[..|ms| - 1], log, e, exts, parse);
      SeenExtension(h, ms[|ms| - 1], e, exts);
    }
  }

  // A frozen log is parsed at most once, whatever the network does.
  lemma {:induction false} FrozenParsedAtMostOnce(h: History, ms: seq<Moment>, log: Body, e: string, exts: seq<string>,
                                                  parse: Body -> LogStats)
    requires e in exts && Frozen(ms, log) && (h.row.Some? ==> h.row.value.ext == e)
    ensures Parses(h, ms, e, exts, parse) <= 1
    ensures var r := Follow(h, ms, e, exts, parse).row;
            r == h.row || (r.Some? && r.value.ext == e && r.value.size == |log|)
    ensures Follow(h, ms, e, exts, parse).row == h.row && (h.row.Some? ==> h.row.value.size != |log|) ==>
              Parses(h, ms, e, exts, parse) == 0
  {
    if ms != [] {
      var front, m := ms[..|ms| - 1], ms[|ms| - 1];
      FrozenParsedAtMostOnce(h, front, log, e, exts, parse);
      var p := Follow(h, front, e, exts, parse);
      SeenExtension(p, m, e, exts);
      if h.row.Some? && h.row.value.size == |log| {
        RecordedIsFinal(h, ms, log, e, exts, parse);
      }
    }
  }

  // ---- a skip that is not sound ----

  // A log of one line that was seen while the job ran, grew by a second, and could not be
  // fetched when the job had ended.
  const LINE: Body := [10]

  function Grown(): seq<Moment> {
    [Moment(true, LINE, LINE, true, true, true), Moment(false, LINE + LINE, LINE + LINE, true, true, false)]
  }

  // The next visit skips the finished job and leaves it with the statistics of the first line.
  lemma StaleSkip(e: string, parse: Body -> LogStats)
    requires parse(LINE).finishReason == "N/A"
    ensures AppendOnly(Grown() + [Moment(false, LINE + LINE, LINE + LINE, true, true, true)])
    ensures var row := Follow(UNSEEN, Grown(), e, [e], parse).row;
            var m := Moment(false, LINE + LINE, LINE + LINE, true, true, true);
            && row == Some(StatsRow(e, 2, Some(parse(LINE))))
            && Visit(row, m.running, [e], NetOf(e, m), parse).Skipped?
  {
    var ms := Grown();
    assert ms[..1] == [ms[0]] && ms[..1][..0] == [];
    var h1 := See(UNSEEN, ms[0], e, [e], parse);
    assert h1.row == Some(StatsRow(e, 1, Some(parse(LINE))));
    assert Follow(UNSEEN, ms[..1], e, [e], parse) == h1;
    assert See(h1, ms[1], e, [e], parse).row == Some(StatsRow(e, 2, Some(parse(LINE))));
  }
}
