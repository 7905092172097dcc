// One execution of a timer task: a round over the selected nodes, a retry round over the
// nodes that failed, and the rows and counts that record it.
module TaskExecutor {
  import opened Options
  import opened Sequences
  import opened Texts

  // A JSON value on its way into a text column.
  datatype Cell = Null | Text(text: string) | NonText(json: string)

  // What posting to one node's schedule.json came to: an exception before an answer was
  // decoded, or an answer, after which recording the job's version may still raise. The
  // status is the answer's own, and the result its job id, message or exception, of whatever
  // JSON type.
  datatype Reply = Raised | Answer(statusCode: int, status: Cell, result: Cell, recordFails: bool)

  predicate Succeeded(r: Reply) {
    r.Answer? && r.statusCode == 200 && r.status == Text("ok") && !r.recordFails
  }

  datatype JobRow = JobRow(node: int, statusCode: int, status: Cell, result: Cell)

  // A Python list object: several names may refer to the same one.
  class NodeList {
    var items: seq<int>

    constructor (items: seq<int>)
      ensures this.items == items
    {
      this.items := items;
    }
  }

  function Nodes(rows: seq<JobRow>): (ns: seq<int>)
    ensures |ns| == |rows|
  {
    if rows == [] then [] else Nodes(rows[..|rows| - 1]) + [rows[|rows| - 1].node]
  }

  predicate IsOk(row: JobRow) { row.status == Text("ok") }

  function CountOk(rows: seq<JobRow>): (n: nat)
    ensures n <= |rows|
  {
    if rows == [] then 0 else CountOk(rows[..|rows| - 1]) + if IsOk(rows[|rows| - 1]) then 1 else 0
  }

  // The positions of the rows whose status is ok, or is not.
  function PositionsOf(rows: seq<JobRow>, ok: bool): set<int> {
    set i | 0 <= i < |rows| && (rows[i].status == Text("ok")) == ok
  }

  lemma PositionsSnoc(rows: seq<JobRow>, row: JobRow, ok: bool)
    ensures PositionsOf(rows + [row], ok) ==
            PositionsOf(rows, ok) + if (row.status == Text("ok")) == ok then {|rows|} else {}
    ensures |rows| !in PositionsOf(rows, ok)
  {
    var all := rows + [row];
    assert forall i :: 0 <= i < |rows| ==> all[i] == rows[i];
    assert all[|rows|] == row;
  }

  lemma {:induction false} CountOkIs(rows: seq<JobRow>)
    ensures CountOk(rows) == |PositionsOf(rows, true)|
    ensures |rows| - CountOk(rows) == |PositionsOf(rows, false)|
  {
    if rows != [] {
      var front, row := rows[..|rows| - 1], rows[|rows| - 1];
      assert rows == front + [row];
      CountOkIs(front);
      PositionsSnoc(front, row, true);
      PositionsSnoc(front, row, false);
    }
  }

  // The count is the number of positions whose row has the status ok.
  lemma CountsArePositions(rows: seq<JobRow>)
    ensures CountOk(rows) == |set i | 0 <= i < |rows| && rows[i].status == Text("ok")|
    ensures |rows| - CountOk(rows) == |set i | 0 <= i < |rows| && rows[i].status != Text("ok")|
  {
    CountOkIs(rows);
    assert PositionsOf(rows, true) == set i | 0 <= i < |rows| && rows[i].status == Text("ok");
    assert PositionsOf(rows, false) == set i | 0 <= i < |rows| && rows[i].status != Text("ok");
  }

  // The rows whose insertion finds the result row present, in order.
  function Inserted(present: nat -> bool, rows: seq<JobRow>): seq<JobRow> {
    if rows == [] then []
    else
      var n := |rows| - 1;
      Inserted(present, rows[..n]) + if present(n) then [rows[n]] else []
  }

  // ---- what can go wrong for good ----

  predicate Valid(servers: seq<string>, node: int) {
    0 < node <= |servers|
  }

  // The node is configured, but the list of credentials is too short for it.
  predicate NoCredentials(servers: seq<string>, auths: nat, node: int) {
    Valid(servers, node) && node > auths
  }

  // ':' and a digit after the first character, so that the recorded URL names the server.
  predicate NamesPort(server: string) {
    exists i :: 1 <= i < |server| - 1 && server[i] == ':' && IsDigit(server[i + 1])
  }

  // The server column of the row can be filled in: from the URL, or by a list index that
  // Python accepts.
  predicate Nameable(servers: seq<string>, node: int) {
    if Valid(servers, node) then true
    else NamesPort(if servers == [] then "unknown" else servers[0]) || -|servers| <= node - 1 < |servers|
  }

  const STATUS_WIDTH := 9

  // Which values other than null the database takes in the status and result columns: whether
  // it takes numbers, objects, texts of any encoding and length.
  datatype Columns = Columns(takesStatus: Cell -> bool, takesResult: Cell -> bool)

  // The columns take no null, and the status no more than nine characters.
  predicate Storable(columns: Columns, status: Cell, result: Cell) {
    && !status.Null? && !result.Null? && (status.Text? ==> |status.text| <= STATUS_WIDTH)
    && columns.takesStatus(status) && columns.takesResult(result)
  }

  predicate Fits(columns: Columns, servers: seq<string>, row: JobRow) {
    Nameable(servers, row.node) && Storable(columns, row.status, row.result)
  }

  predicate Recordable(columns: Columns, r: Reply) {
    r.Answer? ==> Storable(columns, r.status, r.result)
  }

  // The texts that the executor writes itself are taken by any database.
  ghost predicate TakesOwnTexts(columns: Columns, servers: seq<string>) {
    && columns.takesStatus(Text("exception")) && columns.takesStatus(Text("error"))
    && columns.takesResult(Text("")) && forall n :: columns.takesResult(Text(IndexError(servers, n)))
  }

  // How many credentials are listed, and what the database takes.
  datatype Site = Site(auths: nat, columns: Columns)

  // ---- one round, as a function of the answers ----

  function ValidOnly(servers: seq<string>, nodes: seq<int>): seq<int> {
    if nodes == [] then []
    else
      var n := nodes[|nodes| - 1];
      ValidOnly(servers, nodes[..|nodes| - 1]) + if Valid(servers, n) then [n] else []
  }

  function IndexError(servers: seq<string>, node: int): string {
    "node index error: " + IntText(node) + ", which should be between 1 and " + IntText(|servers|)
  }

  // The row of an attempt that is not deferred.
  function OutcomeRow(servers: seq<string>, node: int, r: Reply): JobRow {
    if !Valid(servers, node) then JobRow(node, -1, Text("exception"), Text(IndexError(servers, node)))
    else if r.Raised? then JobRow(node, -1, Text("error"), Text(""))
    else JobRow(node, r.statusCode, r.status, r.result)
  }

  // A round that starts with these nodes on the retry list and this many posts behind it.
  datatype Start = Start(known: seq<int>, posts: nat)

  function AnswerTo(servers: seq<string>, reply: nat -> Reply, nodes: seq<int>, start: Start): Reply {
    reply(start.posts + |ValidOnly(servers, nodes)|)
  }

  predicate Passes(servers: seq<string>, node: int, r: Reply) {
    Valid(servers, node) && Succeeded(r)
  }

  // The retry list after attempting nodes in order.
  function Failing(servers: seq<string>, reply: nat -> Reply, nodes: seq<int>, start: Start): seq<int> {
    if nodes == [] then start.known
    else
      var front, n := nodes[..|nodes| - 1], nodes[|nodes| - 1];
      var p := Failing(servers, reply, front, start);
      if n in p || Passes(servers, n, AnswerTo(servers, reply, front, start)) then p else p + [n]
  }

  // The outcomes that are not deferred, in order.
  function Rows(servers: seq<string>, reply: nat -> Reply, nodes: seq<int>, start: Start): seq<JobRow> {
    if nodes == [] then []
    else
      var front, n := nodes[..|nodes| - 1], nodes[|nodes| - 1];
      var r := AnswerTo(servers, reply, front, start);
      Rows(servers, reply, front, start) +
      if n in Failing(servers, reply, front, start) || Passes(servers, n, r) then [OutcomeRow(servers, n, r)] else []
  }

  const FIRST := Start([], 0)

  function FirstFailures(servers: seq<string>, reply: nat -> Reply, nodes: seq<int>): seq<int> {
    Failing(servers, reply, nodes, FIRST)
  }

  function Second(servers: seq<string>, reply: nat -> Reply, nodes: seq<int>): Start {
    Start(FirstFailures(servers, reply, nodes), |ValidOnly(servers, nodes)|)
  }

  // The outcomes of both rounds.
  function AllRows(servers: seq<string>, reply: nat -> Reply, nodes: seq<int>): seq<JobRow> {
    Rows(servers, reply, nodes, FIRST) +
    Rows(servers, reply, FirstFailures(servers, reply, nodes), Second(servers, reply, nodes))
  }

  // No attempt lacks credentials, and every row whose result row is present can be inserted.
  ghost predicate Clear(servers: seq<string>, site: Site, present: nat -> bool, nodes: seq<int>, rows: seq<JobRow>,
                        at: nat)
  {
    && (forall n <- nodes :: !NoCredentials(servers, site.auths, n))
    && (forall r :: 0 <= r < |rows| && present(at + r) ==> Fits(site.columns, servers, rows[r]))
  }

  predicate Kept(servers: seq<string>, reply: nat -> Reply, front: seq<int>, n: int, start: Start) {
    n in Failing(servers, reply, front, start) || Passes(servers, n, AnswerTo(servers, reply, front, start))
  }

  // One more attempt adds to the outcomes or to the retry list.
  lemma OneMore(servers: seq<string>, reply: nat -> Reply, front: seq<int>, n: int, start: Start)
    ensures var kept := Kept(servers, reply, front, n, start);
            var p, rows := Failing(servers, reply, front, start), Rows(servers, reply, front, start);
            var row := OutcomeRow(servers, n, AnswerTo(servers, reply, front, start));
            && Failing(servers, reply, front + [n], start) == (if kept then p else p + [n])
            && Rows(servers, reply, front + [n], start) == (if kept then rows + [row] else rows)
            && ValidOnly(servers, front + [n]) ==
                 (if Valid(servers, n) then ValidOnly(servers, front) + [n] else ValidOnly(servers, front))
  {
    assert (front + [n])[..|front|] == front;
    assert Rows(servers, reply, front, start) + [] == Rows(servers, reply, front, start);
    assert ValidOnly(servers, front) + [] == ValidOnly(servers, front);
  }

  lemma ClearStep(servers: seq<string>, site: Site, present: nat -> bool, front: seq<int>, n: int, rows: seq<JobRow>,
                  row: JobRow, kept: bool, next: seq<JobRow>, at: nat)
    requires next == if kept then rows + [row] else rows
    ensures Clear(servers, site, present, front + [n], next, at) ==
            (Clear(servers, site, present, front, rows, at) && !NoCredentials(servers, site.auths, n) &&
             (kept && present(at + |rows|) ==> Fits(site.columns, servers, row)))
  {
    assert forall m :: m in front + [n] <==> m in front || m == n;
    assert forall r :: 0 <= r < |rows| ==> next[r] == rows[r];
    assert kept ==> next[|rows|] == row;
  }

  // The values before and after one more attempt at n.
  ghost predicate Attempted(servers: seq<string>, reply: nat -> Reply, front: seq<int>, n: int, start: Start,
                            all: seq<int>, rows: seq<JobRow>, next: seq<JobRow>, row: JobRow, kept: bool)
  {
    && all == front + [n]
    && rows == Rows(servers, reply, front, start) && next == Rows(servers, reply, all, start)
    && row == OutcomeRow(servers, n, AnswerTo(servers, reply, front, start))
    && kept == Kept(servers, reply, front, n, start)
  }

  lemma ClearOneMore(servers: seq<string>, site: Site, present: nat -> bool, reply: nat -> Reply, front: seq<int>,
                     n: int, start: Start, at: nat, all: seq<int>, rows: seq<JobRow>, next: seq<JobRow>, row: JobRow,
                     kept: bool)
    requires Attempted(servers, reply, front, n, start, all, rows, next, row, kept)
    ensures Clear(servers, site, present, all, next, at) ==
            (Clear(servers, site, present, front, rows, at) && !NoCredentials(servers, site.auths, n) &&
             (kept && present(at + |rows|) ==> Fits(site.columns, servers, row)))
  {
    OneMore(servers, reply, front, n, start);
    ClearStep(servers, site, present, front, n, rows, row, kept, next, at);
  }

  // What is not clear at some point of a round is not clear at its end.
  lemma {:induction false} StaysUnclear(servers: seq<string>, site: Site, present: nat -> bool, reply: nat -> Reply,
                                        nodes: seq<int>, i: nat, start: Start, at: nat)
    requires i <= |nodes|
    requires !Clear(servers, site, present, nodes[..i], Rows(servers, reply, nodes[..i], start), at)
    ensures !Clear(servers, site, present, nodes, Rows(servers, reply, nodes, start), at)
    decreases |nodes| - i
  {
    if i == |nodes| {
      Whole(nodes);
    } else {
      Snoc(nodes, i);
      var front, all, n := nodes[..i], nodes[..i + 1], nodes[i];
      ClearOneMore(servers, site, present, reply, front, n, start, at, all, Rows(servers, reply, front, start),
                   Rows(servers, reply, all, start), OutcomeRow(servers, n, AnswerTo(servers, reply, front, start)),
                   Kept(servers, reply, front, n, start));
      StaysUnclear(servers, site, present, reply, nodes, i + 1, start, at);
    }
  }

  // The rows inserted and counted so far belong to these outcomes.
  ghost predicate Tallied(present: nat -> bool, results: seq<JobRow>, pass: nat, fail: nat, jobRows: seq<JobRow>) {
    pass == CountOk(results) && pass + fail == |results| && jobRows == Inserted(present, results)
  }

  lemma TalliedSnoc(present: nat -> bool, results: seq<JobRow>, pass: nat, fail: nat, jobRows: seq<JobRow>, row: JobRow)
    requires Tallied(present, results, pass, fail, jobRows)
    ensures Tallied(present, results + [row], if IsOk(row) then pass + 1 else pass,
                    if IsOk(row) then fail else fail + 1, if present(|results|) then jobRows + [row] else jobRows)
  {
    assert (results + [row])[..|results|] == results;
  }

  // What attempting these nodes has added.
  predicate Behind(servers: seq<string>, reply: nat -> Reply, done: seq<int>, start: Start, results0: seq<JobRow>,
                   posted0: seq<int>, results: seq<JobRow>, retry: seq<int>, posted: seq<int>)
  {
    && start.posts == |posted0|
    && results == results0 + Rows(servers, reply, done, start)
    && retry == Failing(servers, reply, done, start)
    && posted == posted0 + ValidOnly(servers, done)
  }

  // How far a round over these nodes has come that started with these results and posts.
  ghost predicate SoFar(servers: seq<string>, site: Site, present: nat -> bool, reply: nat -> Reply, done: seq<int>,
                        start: Start, results0: seq<JobRow>, posted0: seq<int>, results: seq<JobRow>, retry: seq<int>,
                        posted: seq<int>)
  {
    && Behind(servers, reply, done, start, results0, posted0, results, retry, posted)
    && Clear(servers, site, present, done, Rows(servers, reply, done, start), |results0|)
  }

  // Whether an attempt in this state records a row.
  predicate Records(servers: seq<string>, reply: nat -> Reply, n: int, retry: seq<int>, posts: nat) {
    n in retry || Passes(servers, n, reply(posts))
  }

  // The attempt at n in this state ends the execution.
  predicate Stops(servers: seq<string>, site: Site, present: nat -> bool, reply: nat -> Reply, n: int, results: nat,
                  retry: seq<int>, posts: nat)
  {
    || NoCredentials(servers, site.auths, n)
    || (Records(servers, reply, n, retry, posts) && present(results) &&
        !Fits(site.columns, servers, OutcomeRow(servers, n, reply(posts))))
  }

  lemma PostsSoFar(servers: seq<string>, reply: nat -> Reply, front: seq<int>, n: int, start: Start,
                   results0: seq<JobRow>, posted0: seq<int>, results: seq<JobRow>, retry: seq<int>, posted: seq<int>)
    requires Behind(servers, reply, front, start, results0, posted0, results, retry, posted)
    ensures reply(|posted|) == AnswerTo(servers, reply, front, start)
    ensures |results| == |results0| + |Rows(servers, reply, front, start)|
    ensures Records(servers, reply, n, retry, |posted|) == Kept(servers, reply, front, n, start)
  {
    assert |posted| == start.posts + |ValidOnly(servers, front)|;
  }

  lemma StopsUnclear(servers: seq<string>, site: Site, present: nat -> bool, reply: nat -> Reply, front: seq<int>,
                     n: int, start: Start, at: nat, results: nat, retry: seq<int>, posts: nat, all: seq<int>,
                     rows: seq<JobRow>, next: seq<JobRow>)
    requires Attempted(servers, reply, front, n, start, all, rows, next, OutcomeRow(servers, n, reply(posts)),
                       Records(servers, reply, n, retry, posts))
    requires results == at + |rows| && Clear(servers, site, present, front, rows, at)
    ensures Clear(servers, site, present, all, next, at) ==
            !Stops(servers, site, present, reply, n, results, retry, posts)
  {
    ClearOneMore(servers, site, present, reply, front, n, start, at, all, rows, next,
                 OutcomeRow(servers, n, reply(posts)), Records(servers, reply, n, retry, posts));
  }

  lemma SoFarSnoc(servers: seq<string>, site: Site, present: nat -> bool, reply: nat -> Reply, front: seq<int>, n: int,
                  start: Start, results0: seq<JobRow>, posted0: seq<int>, results: seq<JobRow>, retry: seq<int>,
                  posted: seq<int>, all: seq<int>)
    requires SoFar(servers, site, present, reply, front, start, results0, posted0, results, retry, posted)
    requires all == front + [n] && !Stops(servers, site, present, reply, n, |results|, retry, |posted|)
    ensures var records, row := Records(servers, reply, n, retry, |posted|), OutcomeRow(servers, n, reply(|posted|));
            SoFar(servers, site, present, reply, all, start, results0, posted0,
                  if records then results + [row] else results, if records then retry else retry + [n],
                  if Valid(servers, n) then posted + [n] else posted)
  {
    PostsSoFar(servers, reply, front, n, start, results0, posted0, results, retry, posted);
    OneMore(servers, reply, front, n, start);
    StopsUnclear(servers, site, present, reply, front, n, start, |results0|, |results|, retry, |posted|, all,
                 Rows(servers, reply, front, start), Rows(servers, reply, all, start));
    Appended(results0, Rows(servers, reply, front, start), OutcomeRow(servers, n, reply(|posted|)));
    Appended(posted0, ValidOnly(servers, front), n);
  }

  lemma Appended<T>(a: seq<T>, b: seq<T>, x: T)
    ensures a + (b + [x]) == a + b + [x]
  {
  }

  class TaskExecutor {
    const servers: seq<string>
    const site: Site
    const reply: nat -> Reply      // the answer to each POST in turn
    const present: nat -> bool     // whether the result row still exists at each insertion
    const selected: NodeList
    const retry: NodeList
    var posted: seq<int>           // the nodes posted to, in order
    var passCount: nat
    var failCount: nat
    var results: seq<JobRow>       // the counted outcomes
    var jobRows: seq<JobRow>       // the rows that were inserted
    var stored: Option<(nat, nat)> // pass and fail counts written to the result row

    constructor (servers: seq<string>, site: Site, reply: nat -> Reply, present: nat -> bool, nodes: seq<int>)
      ensures this.servers == servers && this.site == site && this.reply == reply && this.present == present
      ensures fresh(selected) && fresh(retry) && selected != retry
      ensures selected.items == nodes && retry.items == [] && posted == [] && results == [] && jobRows == []
      ensures passCount == failCount == 0 && stored == None
    {
      this.servers, this.site, this.reply, this.present := servers, site, reply, present;
      selected := new NodeList(nodes);
      retry := new NodeList([]);
      posted, results, jobRows, passCount, failCount, stored := [], [], [], 0, 0, None;
    }

    // A node that fails for the first time is put on the retry list and gives no result;
    // one that is already there gives its failure. Looking up missing credentials raises.
    method Schedule(node: int) returns (raised: bool, js: Option<JobRow>)
      modifies this`posted, retry
      ensures raised <==> NoCredentials(servers, site.auths, node)
      ensures raised ==> posted == old(posted) && retry.items == old(retry.items)
      ensures var records := Records(servers, reply, node, old(retry.items), |old(posted)|);
              !raised ==>
                && posted == (if Valid(servers, node) then old(posted) + [node] else old(posted))
                && js == (if records then Some(OutcomeRow(servers, node, reply(|old(posted)|))) else None)
                && retry.items == (if records then old(retry.items) else old(retry.items) + [node])
    {
      raised := false;
      if !Valid(servers, node) {
        if node !in retry.items {
          retry.items := retry.items + [node];
          return false, None;
        }
        return false, Some(JobRow(node, -1, Text("exception"), Text(IndexError(servers, node))));
      }
      if node > site.auths {
        return true, None;
      }
      var r := reply(|posted|);
      posted := posted + [node];
      if Succeeded(r) {
        return false, Some(JobRow(node, r.statusCode, r.status, r.result));
      }
      if node !in retry.items {
        retry.items := retry.items + [node];
        return false, None;
      }
      js := Some(if r.Raised? then JobRow(node, -1, Text("error"), Text(""))
                 else JobRow(node, r.statusCode, r.status, r.result));
    }

    // Inserts the row unless the result row is gone; raises when it finds no server name or
    // the database refuses the row.
    method InsertJobResult(js: JobRow, n: nat) returns (raised: bool)
      modifies this`jobRows
      ensures raised <==> present(n) && !Fits(site.columns, servers, js)
      ensures jobRows == if present(n) && !raised then old(jobRows) + [js] else old(jobRows)
    {
      raised := false;
      if present(n) {
        if Nameable(servers, js.node) && Storable(site.columns, js.status, js.result) {
          jobRows := jobRows + [js];
        } else {
          raised := true;
        }
      }
    }

    method CountOutcome(js: JobRow)
      modifies this`passCount, this`failCount, this`results
      ensures results == old(results) + [js]
      ensures passCount == if IsOk(js) then old(passCount) + 1 else old(passCount)
      ensures failCount == if IsOk(js) then old(failCount) else old(failCount) + 1
    {
      if js.status == Text("ok") {
        passCount := passCount + 1;
      } else {
        failCount := failCount + 1;
      }
      results := results + [js];
    }

    // Counts one outcome and inserts its row.
    method Record(js: JobRow) returns (raised: bool)
      requires Tallied(present, results, passCount, failCount, jobRows)
      modifies this`passCount, this`failCount, this`results, this`jobRows
      ensures results == old(results) + [js]
      ensures raised <==> present(|old(results)|) && !Fits(site.columns, servers, js)
      ensures !raised ==> Tallied(present, results, passCount, failCount, jobRows)
    {
      var n := |results|;
      TalliedSnoc(present, results, passCount, failCount, jobRows, js);
      CountOutcome(js);
      raised := InsertJobResult(js, n);
    }

    ghost predicate Progress(done: seq<int>, start: Start, results0: seq<JobRow>, posted0: seq<int>)
      reads this, retry
    {
      && Tallied(present, results, passCount, failCount, jobRows)
      && SoFar(servers, site, present, reply, done, start, results0, posted0, results, retry.items, posted)
    }

    // One occurrence: its outcome is counted and recorded, or it joins the retry list.
    method Attempt(node: int) returns (raised: bool)
      requires selected != retry && Tallied(present, results, passCount, failCount, jobRows)
      modifies this`posted, this`passCount, this`failCount, this`results, this`jobRows, retry
      ensures var row := OutcomeRow(servers, node, reply(|old(posted)|));
              var records := Records(servers, reply, node, old(retry.items), |old(posted)|);
              && (raised <==> Stops(servers, site, present, reply, node, |old(results)|, old(retry.items),
                                    |old(posted)|))
              && (!raised ==>
                    && Tallied(present, results, passCount, failCount, jobRows)
                    && results == (if records then old(results) + [row] else old(results))
                    && retry.items == (if records then old(retry.items) else old(retry.items) + [node])
                    && posted == (if Valid(servers, node) then old(posted) + [node] else old(posted)))
    {
      var js;
      raised, js := Schedule(node);
      if !raised && js.Some? {
        raised := Record(js.value);
      }
    }

    method Step(nodes: seq<int>, i: nat, ghost start: Start, ghost results0: seq<JobRow>, ghost posted0: seq<int>)
      returns (raised: bool)
      requires i < |nodes| && selected != retry
      requires Progress(nodes[..i], start, results0, posted0)
      modifies this`posted, this`passCount, this`failCount, this`results, this`jobRows, retry
      ensures !raised ==> Progress(nodes[..i + 1], start, results0, posted0)
      ensures raised ==>
                !Clear(servers, site, present, nodes[..i + 1], Rows(servers, reply, nodes[..i + 1], start), |results0|)
    {
      Snoc(nodes, i);
      ghost var results1, retry1, posted1 := results, retry.items, posted;
      ghost var front, all := nodes[..i], nodes[..i + 1];
      raised := Attempt(nodes[i]);
      if raised {
        PostsSoFar(servers, reply, front, nodes[i], start, results0, posted0, results1, retry1,
                   posted1);
        StopsUnclear(servers, site, present, reply, front, nodes[i], start, |results0|, |results1|, retry1, |posted1|,
                     all, Rows(servers, reply, front, start), Rows(servers, reply, all, start));
      } else {
        SoFarSnoc(servers, site, present, reply, front, nodes[i], start, results0, posted0, results1, retry1, posted1,
                  all);
      }
    }

    // One round over a copy of the list; the list itself may grow meanwhile. It ends early
    // exactly when some attempt lacks credentials or records a row that cannot be inserted.
    method Round(nodes: NodeList) returns (raised: bool)
      requires selected != retry && Tallied(present, results, passCount, failCount, jobRows)
      modifies this`posted, this`passCount, this`failCount, this`results, this`jobRows, retry
      ensures var start, ns := Start(old(retry.items), |old(posted)|), old(nodes.items);
              && (raised <==> !Clear(servers, site, present, ns, Rows(servers, reply, ns, start), |old(results)|))
              && (!raised ==> Progress(ns, start, old(results), old(posted)))
    {
      var copy := nodes.items;
      ghost var start, results0, posted0 := Start(retry.items, |posted|), results, posted;
      for i := 0 to |copy|
        invariant Progress(copy[..i], start, results0, posted0)
      {
        raised := Step(copy, i, start, results0, posted0);
        if raised {
          StaysUnclear(servers, site, present, reply, copy, i + 1, start, |results0|);
          return;
        }
      }
      Whole(copy);
      raised := false;
    }

    // Both rounds, then the counts. The second entry of the list of rounds is the very list
    // the first round appends to.
    method Run() returns (raised: bool)
      requires selected != retry && retry.items == [] && posted == [] && results == [] && jobRows == []
      requires passCount == failCount == 0 && stored == None
      modifies this, retry
      // the execution ends early exactly when an attempt lacks credentials or a row that finds
      // its result present cannot be inserted, and then it stores no counts
      ensures raised <==> !Clear(servers, site, present, selected.items, AllRows(servers, reply, selected.items), 0)
      ensures raised ==> stored == None
      // otherwise the counted outcomes are those of both rounds, the second of which sees
      // exactly the nodes that failed in the first
      ensures !raised ==> results == AllRows(servers, reply, selected.items)
      ensures !raised ==> retry.items == FirstFailures(servers, reply, selected.items)
      ensures !raised ==> posted == ValidOnly(servers, selected.items) + ValidOnly(servers, retry.items)
      ensures !raised ==> jobRows == Inserted(present, results)
      ensures !raised ==> passCount == CountOk(results) && passCount + failCount == |selected.items|
      ensures !raised ==> passCount == |set i | 0 <= i < |results| && results[i].status == Text("ok")|
      ensures !raised ==> failCount == |set i | 0 <= i < |results| && results[i].status != Text("ok")|
      // and the counts are stored unless the result row was deleted meanwhile
      ensures !raised ==> stored == if present(|selected.items|) then Some((passCount, failCount)) else None
    {
      var rounds := [selected, retry];
      ghost var nodes := selected.items;
      ghost var rows1 := Rows(servers, reply, nodes, FIRST);
      EveryOccurrenceCounted(servers, reply, nodes);
      BothClear(servers, site, present, reply, nodes);
      raised := Round(rounds[0]);
      if raised {
        return;
      }
      assert results == rows1 && posted == ValidOnly(servers, nodes);
      assert rounds[1] == retry && Start(retry.items, |posted|) == Second(servers, reply, nodes);
      SecondFailures(servers, reply, nodes);
      raised := Round(rounds[1]);
      if !raised {
        CountsArePositions(results);
        StoreCounts();
      }
    }

    // Writes the counts to the result row if it still exists.
    method StoreCounts()
      requires stored == None
      modifies this`stored
      ensures stored == if present(|results|) then Some((passCount, failCount)) else None
    {
      if present(|results|) {
        stored := Some((passCount, failCount));
      }
    }
  }

  // ---- every occurrence is counted once ----

  // Every occurrence handled so far is in exactly one of two places: among the outcomes or on
  // the retry list.
  lemma {:induction false} Handled(servers: seq<string>, reply: nat -> Reply, nodes: seq<int>, start: Start)
    ensures multiset(Nodes(Rows(servers, reply, nodes, start))) + multiset(Failing(servers, reply, nodes, start)) ==
            multiset(nodes) + multiset(start.known)
    ensures NoRepeats(start.known) ==> NoRepeats(Failing(servers, reply, nodes, start))
  {
    if nodes != [] {
      var front, n := nodes[..|nodes| - 1], nodes[|nodes| - 1];
      assert nodes == front + [n];
      Handled(servers, reply, front, start);
      OneMore(servers, reply, front, n, start);
      HandledOne(Rows(servers, reply, front, start), Failing(servers, reply, front, start), front, start.known, n,
                 OutcomeRow(servers, n, AnswerTo(servers, reply, front, start)));
    }
  }

  lemma HandledOne(rows: seq<JobRow>, failing: seq<int>, front: seq<int>, known: seq<int>, n: int, row: JobRow)
    requires multiset(Nodes(rows)) + multiset(failing) == multiset(front) + multiset(known) && row.node == n
    ensures multiset(Nodes(rows + [row])) + multiset(failing) == multiset(front + [n]) + multiset(known)
    ensures multiset(Nodes(rows)) + multiset(failing + [n]) == multiset(front + [n]) + multiset(known)
    ensures NoRepeats(failing) && n !in failing ==> NoRepeats(failing + [n])
  {
    NodesSnoc(rows, row);
    AddOne(multiset(Nodes(rows)), multiset(failing), multiset(front), multiset(known), n);
  }

  lemma AddOne(a: multiset<int>, b: multiset<int>, c: multiset<int>, d: multiset<int>, n: int)
    requires a + b == c + d
    ensures (a + multiset{n}) + b == (c + multiset{n}) + d && a + (b + multiset{n}) == (c + multiset{n}) + d
  {
    var m := multiset{n};
    forall x: int ensures (a + m + b)[x] == (c + m + d)[x] && (a + (b + m))[x] == (c + m + d)[x] {
      assert (a + b)[x] == (c + d)[x];
    }
  }

  lemma NodesSnoc(rows: seq<JobRow>, r: JobRow)
    ensures Nodes(rows + [r]) == Nodes(rows) + [r.node]
  {
    assert (rows + [r])[..|rows|] == rows;
  }

  lemma {:induction false} NodesAppend(a: seq<JobRow>, b: seq<JobRow>)
    ensures Nodes(a + b) == Nodes(a) + Nodes(b)
  {
    if b == [] {
      assert a + b == a;
    } else {
      var front, last := b[..|b| - 1], b[|b| - 1];
      assert a + b == (a + front) + [last] && b == front + [last];
      NodesAppend(a, front);
      NodesSnoc(a + front, last);
      NodesSnoc(front, last);
      assert Nodes(a) + Nodes(front) + [last.node] == Nodes(a) + (Nodes(front) + [last.node]);
    }
  }

  // A node that is already on the retry list is not put there again.
  lemma {:induction false} AllKnown(servers: seq<string>, reply: nat -> Reply, nodes: seq<int>, start: Start)
    requires forall n <- nodes :: n in start.known
    ensures Failing(servers, reply, nodes, start) == start.known
  {
    if nodes != [] {
      AllKnown(servers, reply, nodes[..|nodes| - 1], start);
    }
  }

  lemma SecondFailures(servers: seq<string>, reply: nat -> Reply, nodes: seq<int>)
    ensures var f := FirstFailures(servers, reply, nodes);
            Failing(servers, reply, f, Second(servers, reply, nodes)) == f
  {
    AllKnown(servers, reply, FirstFailures(servers, reply, nodes), Second(servers, reply, nodes));
  }

  lemma Cancel(a: multiset<int>, b: multiset<int>, c: multiset<int>)
    requires a + c == b + c
    ensures a == b
  {
    assert a == a + c - c && b == b + c - c;
  }

  // Each node fails first at most once, and only if it was selected.
  lemma FailuresAreSelected(servers: seq<string>, reply: nat -> Reply, nodes: seq<int>)
    ensures NoRepeats(FirstFailures(servers, reply, nodes))
    ensures forall n <- FirstFailures(servers, reply, nodes) :: n in nodes
  {
    Handled(servers, reply, nodes, FIRST);
    forall n <- FirstFailures(servers, reply, nodes) ensures n in nodes {
      assert n in multiset(FirstFailures(servers, reply, nodes));
      assert n in multiset(nodes) + multiset(FIRST.known);
      assert FIRST.known == [];
    }
  }

  // The nodes of the outcomes are the selected nodes, duplicates included.
  lemma EveryOccurrenceCounted(servers: seq<string>, reply: nat -> Reply, nodes: seq<int>)
    ensures multiset(Nodes(AllRows(servers, reply, nodes))) == multiset(nodes)
    ensures |AllRows(servers, reply, nodes)| == |nodes|
  {
    var f, second := FirstFailures(servers, reply, nodes), Second(servers, reply, nodes);
    var rows1, rows2 := Rows(servers, reply, nodes, FIRST), Rows(servers, reply, f, second);
    Handled(servers, reply, nodes, FIRST);
    Handled(servers, reply, f, second);
    SecondFailures(servers, reply, nodes);
    AddUp(rows1, rows2, nodes, f);
  }

  lemma AddUp(rows1: seq<JobRow>, rows2: seq<JobRow>, nodes: seq<int>, failing: seq<int>)
    requires multiset(Nodes(rows1)) + multiset(failing) == multiset(nodes)
    requires multiset(Nodes(rows2)) + multiset(failing) == multiset(failing) + multiset(failing)
    ensures multiset(Nodes(rows1 + rows2)) == multiset(nodes) && |rows1 + rows2| == |nodes|
  {
    Cancel(multiset(Nodes(rows2)), multiset(failing), multiset(failing));
    NodesAppend(rows1, rows2);
    SameSize(Nodes(rows1 + rows2), nodes);
  }

  lemma SameSize(a: seq<int>, b: seq<int>)
    requires multiset(a) == multiset(b)
    ensures |a| == |b|
  {
    assert |multiset(a)| == |a| && |multiset(b)| == |b|;
  }

  lemma ClearAppend(servers: seq<string>, site: Site, present: nat -> bool, nodes: seq<int>, again: seq<int>,
                    rows1: seq<JobRow>, rows2: seq<JobRow>)
    requires forall n <- again :: n in nodes
    ensures Clear(servers, site, present, nodes, rows1 + rows2, 0) <==>
            Clear(servers, site, present, nodes, rows1, 0) && Clear(servers, site, present, again, rows2, |rows1|)
  {
    var rows := rows1 + rows2;
    assert forall r :: 0 <= r < |rows1| ==> rows[r] == rows1[r];
    assert forall r :: 0 <= r < |rows2| ==> rows[|rows1| + r] == rows2[r];
    assert forall r :: |rows1| <= r < |rows| ==> rows[r] == rows2[r - |rows1|];
  }

  lemma BothClear(servers: seq<string>, site: Site, present: nat -> bool, reply: nat -> Reply, nodes: seq<int>)
    ensures var f := FirstFailures(servers, reply, nodes);
            var rows1 := Rows(servers, reply, nodes, FIRST);
            var rows2 := Rows(servers, reply, f, Second(servers, reply, nodes));
            Clear(servers, site, present, nodes, AllRows(servers, reply, nodes), 0) <==>
            Clear(servers, site, present, nodes, rows1, 0) && Clear(servers, site, present, f, rows2, |rows1|)
  {
    FailuresAreSelected(servers, reply, nodes);
    var f := FirstFailures(servers, reply, nodes);
    ClearAppend(servers, site, present, nodes, f, Rows(servers, reply, nodes, FIRST),
                Rows(servers, reply, f, Second(servers, reply, nodes)));
  }

  lemma {:induction false} ValidOnlyCount(servers: seq<string>, nodes: seq<int>, n: int)
    ensures multiset(ValidOnly(servers, nodes))[n] == if Valid(servers, n) then multiset(nodes)[n] else 0
  {
    if nodes != [] {
      var front, last := nodes[..|nodes| - 1], nodes[|nodes| - 1];
      ValidOnlyCount(servers, front, n);
      assert nodes == front + [last];
    }
  }

  // Over both rounds a node is posted to once per selected occurrence and at most once more,
  // so no occurrence leads to more than two posts.
  lemma AtMostTwoPosts(servers: seq<string>, reply: nat -> Reply, nodes: seq<int>, n: int)
    ensures var posts :=
            multiset(ValidOnly(servers, nodes) + ValidOnly(servers, FirstFailures(servers, reply, nodes)))[n];
            multiset(ValidOnly(servers, nodes))[n] <= posts <= multiset(nodes)[n] + 1 && posts <= 2 * multiset(nodes)[n]
  {
    var failed := FirstFailures(servers, reply, nodes);
    FailuresAreSelected(servers, reply, nodes);
    ValidOnlyCount(servers, nodes, n);
    ValidOnlyCount(servers, failed, n);
    OnceEach(failed, n);
    if n in multiset(failed) {
      assert n in failed;
      assert n in multiset(nodes);
    }
  }

  // ---- when an execution ends early, read off the nodes and the answers ----

  // The k-th answer of a round is recorded, rather than deferred, if it is a success or the
  // node had already failed.
  ghost predicate Recorded(reply: nat -> Reply, posts: seq<int>, start: Start, k: nat)
    requires k < |posts|
  {
    || Succeeded(reply(start.posts + k))
    || posts[k] in start.known
    || exists j :: 0 <= j < k && posts[j] == posts[k] && !Succeeded(reply(start.posts + j))
  }

  // The database refuses a null, a status of more than nine characters, and what its columns
  // do not take.
  predicate Refused(columns: Columns, r: Reply) {
    && r.Answer?
    && (r.status == Null || r.result == Null || (r.status.Text? && |r.status.text| > 9) ||
        !columns.takesStatus(r.status) || !columns.takesResult(r.result))
  }

  // Some recorded answer is refused.
  ghost predicate BadAnswer(columns: Columns, reply: nat -> Reply, posts: seq<int>, start: Start) {
    exists k :: 0 <= k < |posts| && Recorded(reply, posts, start, k) && Refused(columns, reply(start.posts + k))
  }

  // A node without a name comes up after it is on the retry list.
  ghost predicate BadName(servers: seq<string>, nodes: seq<int>, start: Start) {
    exists i :: 0 <= i < |nodes| && !Nameable(servers, nodes[i]) && (nodes[i] in start.known || nodes[i] in nodes[..i])
  }

  lemma {:induction false} FailedInvalid(servers: seq<string>, reply: nat -> Reply, nodes: seq<int>, start: Start,
                                         n: int)
    requires !Valid(servers, n)
    ensures n in Failing(servers, reply, nodes, start) <==> n in start.known || n in nodes
  {
    if nodes != [] {
      var front, m := nodes[..|nodes| - 1], nodes[|nodes| - 1];
      assert nodes == front + [m];
      FailedInvalid(servers, reply, front, start, n);
      OneMore(servers, reply, front, m, start);
      assert n in nodes <==> n in front || n == m;
      assert n == m ==> (Kept(servers, reply, front, m, start) <==> n in Failing(servers, reply, front, start));
    }
  }

  ghost predicate FailedPost(reply: nat -> Reply, posts: seq<int>, start: Start, n: int) {
    exists j :: 0 <= j < |posts| && posts[j] == n && !Succeeded(reply(start.posts + j))
  }

  lemma FailedPostSnoc(reply: nat -> Reply, posts: seq<int>, m: int, start: Start, n: int)
    ensures FailedPost(reply, posts + [m], start, n) <==>
            FailedPost(reply, posts, start, n) || (m == n && !Succeeded(reply(start.posts + |posts|)))
  {
    var all := posts + [m];
    assert forall j :: 0 <= j < |posts| ==> all[j] == posts[j];
    assert all[|posts|] == m;
  }

  lemma FailingSnoc(servers: seq<string>, reply: nat -> Reply, front: seq<int>, m: int, start: Start, n: int)
    ensures n in Failing(servers, reply, front + [m], start) <==>
            || n in Failing(servers, reply, front, start)
            || (m == n && !Passes(servers, m, AnswerTo(servers, reply, front, start)))
  {
    assert (front + [m])[..|front|] == front;
  }

  lemma {:induction false} FailedValid(servers: seq<string>, reply: nat -> Reply, nodes: seq<int>, start: Start, n: int)
    requires Valid(servers, n)
    ensures n in Failing(servers, reply, nodes, start) <==>
            n in start.known || FailedPost(reply, ValidOnly(servers, nodes), start, n)
  {
    if nodes != [] {
      var front, m := nodes[..|nodes| - 1], nodes[|nodes| - 1];
      assert nodes == front + [m];
      FailedValid(servers, reply, front, start, n);
      FailingSnoc(servers, reply, front, m, start, n);
      ValidOnlySnoc(servers, front, m);
      FailedPostSnoc(reply, ValidOnly(servers, front), m, start, n);
    }
  }

  lemma BadAnswerSnoc(columns: Columns, reply: nat -> Reply, posts: seq<int>, m: int, start: Start)
    ensures BadAnswer(columns, reply, posts + [m], start) <==>
            || BadAnswer(columns, reply, posts, start)
            || ((Succeeded(reply(start.posts + |posts|)) || m in start.known || FailedPost(reply, posts, start, m))
                && Refused(columns, reply(start.posts + |posts|)))
  {
    var all, k := posts + [m], |posts|;
    assert all[k] == m;
    forall j | 0 <= j < |posts| ensures Recorded(reply, all, start, j) <==> Recorded(reply, posts, start, j) {
      assert forall l :: 0 <= l <= j ==> all[l] == posts[l];
    }
    assert Recorded(reply, all, start, k) <==>
           Succeeded(reply(start.posts + k)) || m in start.known || FailedPost(reply, posts, start, m) by {
      assert forall j :: 0 <= j < k ==> all[j] == posts[j];
    }
  }

  lemma BadNameSnoc(servers: seq<string>, front: seq<int>, n: int, start: Start)
    ensures BadName(servers, front + [n], start) <==>
            BadName(servers, front, start) || (!Nameable(servers, n) && (n in start.known || n in front))
  {
    var all := front + [n];
    forall i | 0 <= i < |front| ensures all[i] == front[i] && all[..i] == front[..i] {
    }
    assert all[|front|] == n && all[..|front|] == front;
  }

  ghost predicate AllFit(columns: Columns, servers: seq<string>, rows: seq<JobRow>) {
    forall r <- rows :: Fits(columns, servers, r)
  }

  lemma RowsFitSnoc(columns: Columns, servers: seq<string>, reply: nat -> Reply, front: seq<int>, n: int, start: Start)
    requires TakesOwnTexts(columns, servers)
    ensures var r := AnswerTo(servers, reply, front, start);
            AllFit(columns, servers, Rows(servers, reply, front + [n], start)) <==>
            AllFit(columns, servers, Rows(servers, reply, front, start)) &&
            (Kept(servers, reply, front, n, start) ==>
               if Valid(servers, n) then Recordable(columns, r) else Nameable(servers, n))
  {
    OneMore(servers, reply, front, n, start);
    FitsOf(columns, servers, n, AnswerTo(servers, reply, front, start));
    AllFitAppend(columns, servers, Rows(servers, reply, front, start),
                 [OutcomeRow(servers, n, AnswerTo(servers, reply, front, start))]);
  }

  lemma ValidOnlySnoc(servers: seq<string>, front: seq<int>, n: int)
    ensures ValidOnly(servers, front + [n]) ==
            if Valid(servers, n) then ValidOnly(servers, front) + [n] else ValidOnly(servers, front)
  {
    assert (front + [n])[..|front|] == front;
  }

  // One more node adds a bad name, or a bad answer, exactly when its outcome is recorded.
  lemma BadNameStep(servers: seq<string>, reply: nat -> Reply, front: seq<int>, n: int, start: Start)
    ensures BadName(servers, front + [n], start) <==>
            BadName(servers, front, start) || (Kept(servers, reply, front, n, start) && !Nameable(servers, n))
  {
    BadNameSnoc(servers, front, n, start);
    if !Valid(servers, n) {
      FailedInvalid(servers, reply, front, start, n);
    }
  }

  lemma BadAnswerKept(columns: Columns, reply: nat -> Reply, posts: seq<int>, n: int, start: Start, failed: bool)
    requires failed <==> n in start.known || FailedPost(reply, posts, start, n)
    ensures var r := reply(start.posts + |posts|);
            BadAnswer(columns, reply, posts + [n], start) <==>
            BadAnswer(columns, reply, posts, start) || ((failed || Succeeded(r)) && Refused(columns, r))
  {
    BadAnswerSnoc(columns, reply, posts, n, start);
  }

  lemma KeptIff(servers: seq<string>, reply: nat -> Reply, front: seq<int>, n: int, start: Start)
    requires Valid(servers, n)
    ensures Kept(servers, reply, front, n, start) <==>
            || n in start.known || FailedPost(reply, ValidOnly(servers, front), start, n)
            || Succeeded(AnswerTo(servers, reply, front, start))
  {
    FailedValid(servers, reply, front, start, n);
  }

  lemma BadAnswerStep(columns: Columns, servers: seq<string>, reply: nat -> Reply, front: seq<int>, n: int,
                      start: Start, posts: seq<int>, r: Reply, kept: bool)
    requires Valid(servers, n) && posts == ValidOnly(servers, front) && r == AnswerTo(servers, reply, front, start)
    requires kept == Kept(servers, reply, front, n, start)
    ensures BadAnswer(columns, reply, posts + [n], start) <==>
            BadAnswer(columns, reply, posts, start) || (kept && Refused(columns, r))
  {
    KeptIff(servers, reply, front, n, start);
    BadAnswerKept(columns, reply, posts, n, start, n in start.known || FailedPost(reply, posts, start, n));
  }

  lemma UnfitSnoc(columns: Columns, servers: seq<string>, reply: nat -> Reply, front: seq<int>, n: int, start: Start)
    requires TakesOwnTexts(columns, servers)
    requires !AllFit(columns, servers, Rows(servers, reply, front, start)) <==>
             BadName(servers, front, start) || BadAnswer(columns, reply, ValidOnly(servers, front), start)
    ensures !AllFit(columns, servers, Rows(servers, reply, front + [n], start)) <==>
            BadName(servers, front + [n], start) ||
            BadAnswer(columns, reply, ValidOnly(servers, front + [n]), start)
  {
    RowsFitSnoc(columns, servers, reply, front, n, start);
    BadNameStep(servers, reply, front, n, start);
    ValidOnlySnoc(servers, front, n);
    if Valid(servers, n) {
      BadAnswerStep(columns, servers, reply, front, n, start, ValidOnly(servers, front),
                    AnswerTo(servers, reply, front, start), Kept(servers, reply, front, n, start));
    }
  }

  // In one round some recorded row cannot be inserted exactly when a node without a name
  // comes up again or a recorded answer is bad.
  lemma {:induction false} UnfitIff(columns: Columns, servers: seq<string>, reply: nat -> Reply, nodes: seq<int>,
                                    start: Start)
    requires TakesOwnTexts(columns, servers)
    ensures !AllFit(columns, servers, Rows(servers, reply, nodes, start)) <==>
            BadName(servers, nodes, start) || BadAnswer(columns, reply, ValidOnly(servers, nodes), start)
  {
    if nodes != [] {
      var front, n := nodes[..|nodes| - 1], nodes[|nodes| - 1];
      assert nodes == front + [n];
      UnfitIff(columns, servers, reply, front, start);
      UnfitSnoc(columns, servers, reply, front, n, start);
    }
  }

  lemma FitsOf(columns: Columns, servers: seq<string>, n: int, r: Reply)
    requires TakesOwnTexts(columns, servers)
    ensures Fits(columns, servers, OutcomeRow(servers, n, r)) <==>
            if Valid(servers, n) then Recordable(columns, r) else Nameable(servers, n)
  {
  }

  lemma NamelessFails(servers: seq<string>, reply: nat -> Reply, nodes: seq<int>)
    ensures BadName(servers, nodes, FIRST) ||
            BadName(servers, FirstFailures(servers, reply, nodes), Second(servers, reply, nodes))
            <==> exists n <- nodes :: !Nameable(servers, n)
  {
    var f := FirstFailures(servers, reply, nodes);
    FailuresAreSelected(servers, reply, nodes);
    forall n <- nodes | !Nameable(servers, n) ensures BadName(servers, f, Second(servers, reply, nodes)) {
      FailedInvalid(servers, reply, nodes, FIRST, n);
      var i :| 0 <= i < |f| && f[i] == n;
    }
  }

  // While its result row exists, an execution ends early if and only if some selected node
  // lacks credentials or a name, or an answer that is recorded has a status or a result that
  // the database does not take: null, too long a status, or whatever it refuses besides.
  // Recorded are in the first round a success or the answer of a node that had failed before,
  // in the second round every answer.
  lemma EndsEarlyIff(servers: seq<string>, site: Site, reply: nat -> Reply, nodes: seq<int>)
    requires TakesOwnTexts(site.columns, servers)
    ensures var f := FirstFailures(servers, reply, nodes);
            Clear(servers, site, (_: nat) => true, nodes, AllRows(servers, reply, nodes), 0) <==>
            && (forall n <- nodes :: Nameable(servers, n) && (1 <= n <= |servers| ==> n <= site.auths))
            && !BadAnswer(site.columns, reply, ValidOnly(servers, nodes), FIRST)
            && !BadAnswer(site.columns, reply, ValidOnly(servers, f), Second(servers, reply, nodes))
  {
    var f, second, columns := FirstFailures(servers, reply, nodes), Second(servers, reply, nodes), site.columns;
    var rows1, rows2 := Rows(servers, reply, nodes, FIRST), Rows(servers, reply, f, second);
    UnfitIff(columns, servers, reply, nodes, FIRST);
    UnfitIff(columns, servers, reply, f, second);
    NamelessFails(servers, reply, nodes);
    AllFitAppend(columns, servers, rows1, rows2);
    assert Clear(servers, site, (_: nat) => true, nodes, rows1 + rows2, 0) <==>
           (forall n <- nodes :: !NoCredentials(servers, site.auths, n)) && AllFit(columns, servers, rows1 + rows2);
  }

  lemma AllFitAppend(columns: Columns, servers: seq<string>, a: seq<JobRow>, b: seq<JobRow>)
    ensures AllFit(columns, servers, a + b) <==> AllFit(columns, servers, a) && AllFit(columns, servers, b)
  {
  }

  // Every answer of the second round is recorded.
  lemma SecondRoundRecords(servers: seq<string>, reply: nat -> Reply, nodes: seq<int>, k: nat)
    requires k < |ValidOnly(servers, FirstFailures(servers, reply, nodes))|
    ensures Recorded(reply, ValidOnly(servers, FirstFailures(servers, reply, nodes)), Second(servers, reply, nodes), k)
  {
    var f := FirstFailures(servers, reply, nodes);
    var n := ValidOnly(servers, f)[k];
    assert n in multiset(ValidOnly(servers, f));
    ValidOnlyCount(servers, f, n);
    assert n in multiset(f);
  }

  // A node that is not configured is named by the first server's host and port, or, when that
  // has no port, by counting from the end of the list as Python does.
  lemma NamesAre(servers: seq<string>, node: int, host: string, port: string)
    requires node < 1 || node > |servers|
    ensures servers != [] && servers[0] == host + ":" + port && host != "" && port != "" && IsDigit(port[0]) ==>
              Nameable(servers, node)
    ensures servers == [] || ':' !in servers[0] ==>
              (Nameable(servers, node) <==> servers != [] && -|servers| < node < 1)
  {
    if servers != [] && servers[0] == host + ":" + port && host != "" && port != "" {
      assert servers[0][|host|] == ':' && servers[0][|host| + 1] == port[0];
    }
    assert forall c <- "unknown" :: c != ':';
  }

  // ---- such executions exist ----

  // Without servers a task's nodes have no name.
  lemma EndsWithoutServer(columns: Columns, present: nat -> bool, n: nat, reply: nat -> Reply)
    requires n > 0 && forall k :: present(k)
    ensures !Clear([], Site(1, columns), present, [n], AllRows([], reply, [n]), 0)
  {
    assert !Nameable([], n);
    OneFailingNode([], Site(1, columns), present, reply, n);
  }

  // With credentials listed for one server the second cannot be posted to.
  lemma EndsWithoutCredentials(columns: Columns, present: nat -> bool, servers: seq<string>, reply: nat -> Reply)
    requires |servers| == 2
    ensures !Clear(servers, Site(1, columns), present, [2], AllRows(servers, reply, [2]), 0)
  {
    assert 2 in [2] && NoCredentials(servers, 1, 2);
  }

  // A node that answers twice with a status of eleven characters, or with a null status.
  lemma EndsOnStatus(columns: Columns, present: nat -> bool, server: string, answer: Reply)
    requires forall k :: present(k)
    requires answer.Answer? && answer.statusCode == 503
    requires answer.status == Text("unavailable") || answer.status == Null
    ensures !Clear([server], Site(1, columns), present, [1], AllRows([server], _ => answer, [1]), 0)
  {
    OneFailingNode([server], Site(1, columns), present, _ => answer, 1);
  }

  // A node that answers twice with an error whose message the result column does not take, such
  // as a JSON object, or a text with a null character on PostgreSQL.
  lemma EndsOnMessage(columns: Columns, present: nat -> bool, server: string, message: Cell)
    requires (forall k :: present(k)) && !columns.takesResult(message)
    ensures var answer := Answer(200, Text("error"), message, false);
            !Clear([server], Site(1, columns), present, [1], AllRows([server], _ => answer, [1]), 0)
  {
    OneFailingNode([server], Site(1, columns), present, _ => Answer(200, Text("error"), message, false), 1);
  }

  lemma OneAttempt(servers: seq<string>, reply: nat -> Reply, n: int, start: Start)
    requires forall k :: !Passes(servers, n, reply(k))
    ensures n in start.known ==> Rows(servers, reply, [n], start) == [OutcomeRow(servers, n, reply(start.posts))]
    ensures n !in start.known ==>
              Rows(servers, reply, [n], start) == [] && Failing(servers, reply, [n], start) == start.known + [n]
  {
    assert [] + [n] == [n];
    OneMore(servers, reply, [], n, start);
  }

  // A single node that fails twice is recorded with its second answer.
  lemma FailsTwice(servers: seq<string>, reply: nat -> Reply, n: int)
    requires forall k :: !Passes(servers, n, reply(k))
    ensures exists k :: AllRows(servers, reply, [n]) == [OutcomeRow(servers, n, reply(k))]
  {
    OneAttempt(servers, reply, n, FIRST);
    OneAttempt(servers, reply, n, Second(servers, reply, [n]));
  }

  lemma OneFailingNode(servers: seq<string>, site: Site, present: nat -> bool, reply: nat -> Reply, n: int)
    requires forall k :: present(k)
    requires forall k :: !Passes(servers, n, reply(k))
    requires forall k :: !Fits(site.columns, servers, OutcomeRow(servers, n, reply(k)))
    ensures !Clear(servers, site, present, [n], AllRows(servers, reply, [n]), 0)
  {
    FailsTwice(servers, reply, n);
    var rows := AllRows(servers, reply, [n]);
    assert !Fits(site.columns, servers, rows[0]) && present(0 + 0);
  }
}
