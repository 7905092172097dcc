// Which answers the outcomes of an execution carry, and which posts lead to an outcome.
module TaskOutcomes {
  import opened Sequences
  import opened TaskExecutor
  import opened Texts

  // A round as it goes: the outcomes, the post behind each of them (-1 for a node that is not
  // posted to), the posts, and the retry list.
  datatype Round = Round(rows: seq<JobRow>, at: seq<int>, posts: seq<int>, retry: seq<int>)

  function After(servers: seq<string>, reply: nat -> Reply, o: Round, n: int, posts: nat): Round {
    var next := posts + |o.posts|;
    var r := reply(next);
    var valid := Valid(servers, n);
    var o' := if valid then o.(posts := o.posts + [n]) else o;
    if n in o.retry || (valid && Succeeded(r)) then
      o'.(rows := o.rows + [OutcomeRow(servers, n, r)], at := o.at + [if valid then next else -1])
    else
      o'.(retry := o.retry + [n])
  }

  function Through(servers: seq<string>, reply: nat -> Reply, nodes: seq<int>, start: Start): Round {
    if nodes == [] then Round([], [], [], start.known)
    else After(servers, reply, Through(servers, reply, nodes[..|nodes| - 1], start), nodes[|nodes| - 1], start.posts)
  }

  predicate IsRound(servers: seq<string>, reply: nat -> Reply, nodes: seq<int>, start: Start, o: Round) {
    && o.rows == Rows(servers, reply, nodes, start) && o.retry == Failing(servers, reply, nodes, start)
    && o.posts == ValidOnly(servers, nodes)
  }

  lemma AfterIs(servers: seq<string>, reply: nat -> Reply, front: seq<int>, n: int, start: Start, o: Round,
                rows: seq<JobRow>, retry: seq<int>, posts: seq<int>)
    requires IsRound(servers, reply, front, start, o)
    requires rows == Rows(servers, reply, front + [n], start) && retry == Failing(servers, reply, front + [n], start)
    requires posts == ValidOnly(servers, front + [n])
    ensures var o' := After(servers, reply, o, n, start.posts);
            o'.rows == rows && o'.retry == retry && o'.posts == posts
  {
    SameAttempt(servers, reply, front, n, start, o);
    OneMore(servers, reply, front, n, start);
  }

  lemma SameAttempt(servers: seq<string>, reply: nat -> Reply, front: seq<int>, n: int, start: Start, o: Round)
    requires IsRound(servers, reply, front, start, o)
    ensures AnswerTo(servers, reply, front, start) == reply(start.posts + |o.posts|)
    ensures Kept(servers, reply, front, n, start) <==>
            n in o.retry || (Valid(servers, n) && Succeeded(reply(start.posts + |o.posts|)))
  {
  }

  lemma {:induction false} ThroughIs(servers: seq<string>, reply: nat -> Reply, nodes: seq<int>, start: Start)
    ensures IsRound(servers, reply, nodes, start, Through(servers, reply, nodes, start))
  {
    if nodes != [] {
      var front, n := nodes[..|nodes| - 1], nodes[|nodes| - 1];
      assert nodes == front + [n];
      ThroughIs(servers, reply, front, start);
      AfterIs(servers, reply, front, n, start, Through(servers, reply, front, start),
              Rows(servers, reply, nodes, start), Failing(servers, reply, nodes, start), ValidOnly(servers, nodes));
    }
  }

  // The row of an answered post has the answer's own columns; a post that raised and a node
  // that is not configured have rows of their own.
  predicate CarriesAnswer(servers: seq<string>, reply: nat -> Reply, posted: seq<int>, row: JobRow, p: int) {
    if 1 <= row.node <= |servers| then
      && 0 <= p < |posted| && posted[p] == row.node
      && match reply(p)
         case Raised => row.statusCode == -1 && row.status == Text("error") && row.result == Text("")
         case Answer(code, status, result, _) => row.statusCode == code && row.status == status && row.result == result
    else
      && p == -1 && row.statusCode == -1 && row.status == Text("exception")
      && row.result == Text("node index error: " + IntText(row.node) + ", which should be between 1 and " +
                            IntText(|servers|))
  }

  ghost predicate AllCarry(servers: seq<string>, reply: nat -> Reply, posted: seq<int>, rows: seq<JobRow>, at: seq<int>)
  {
    && |at| == |rows|
    && forall r :: 0 <= r < |rows| ==> CarriesAnswer(servers, reply, posted, rows[r], at[r])
  }

  // The posts among these positions are different ones, in order, and lie in this range.
  ghost predicate InOrder(at: seq<int>, low: nat, high: nat) {
    && (forall r :: 0 <= r < |at| ==> at[r] == -1 || low <= at[r] < high)
    && (forall r, q :: 0 <= r < q < |at| && at[r] >= 0 && at[q] >= 0 ==> at[r] < at[q])
  }

  lemma MorePosted(servers: seq<string>, reply: nat -> Reply, posted: seq<int>, n: int, rows: seq<JobRow>, at: seq<int>)
    requires AllCarry(servers, reply, posted, rows, at)
    ensures AllCarry(servers, reply, posted + [n], rows, at)
  {
    forall r | 0 <= r < |rows| ensures CarriesAnswer(servers, reply, posted + [n], rows[r], at[r]) {
      assert CarriesAnswer(servers, reply, posted, rows[r], at[r]);
    }
  }

  lemma OneMoreCarries(servers: seq<string>, reply: nat -> Reply, posted: seq<int>, rows: seq<JobRow>, at: seq<int>,
                       row: JobRow, p: int)
    requires AllCarry(servers, reply, posted, rows, at) && CarriesAnswer(servers, reply, posted, row, p)
    ensures AllCarry(servers, reply, posted, rows + [row], at + [p])
  {
  }

  lemma RowCarries(servers: seq<string>, reply: nat -> Reply, posted: seq<int>, n: int)
    requires Valid(servers, n)
    ensures CarriesAnswer(servers, reply, posted + [n], OutcomeRow(servers, n, reply(|posted|)), |posted|)
  {
    assert (posted + [n])[|posted|] == n;
  }

  lemma InvalidRowCarries(servers: seq<string>, reply: nat -> Reply, posted: seq<int>, n: int, r: Reply)
    requires !Valid(servers, n)
    ensures CarriesAnswer(servers, reply, posted, OutcomeRow(servers, n, r), -1)
  {
  }

  lemma CarryStep(servers: seq<string>, reply: nat -> Reply, posted: seq<int>, n: int, rows: seq<JobRow>, at: seq<int>,
                  row: JobRow)
    requires AllCarry(servers, reply, posted, rows, at) && row == OutcomeRow(servers, n, reply(|posted|))
    ensures Valid(servers, n) ==> AllCarry(servers, reply, posted + [n], rows + [row], at + [|posted|])
    ensures Valid(servers, n) ==> AllCarry(servers, reply, posted + [n], rows, at)
    ensures !Valid(servers, n) ==> AllCarry(servers, reply, posted, rows + [row], at + [-1])
  {
    if Valid(servers, n) {
      MorePosted(servers, reply, posted, n, rows, at);
      RowCarries(servers, reply, posted, n);
      OneMoreCarries(servers, reply, posted + [n], rows, at, row, |posted|);
    } else {
      InvalidRowCarries(servers, reply, posted, n, reply(|posted|));
      OneMoreCarries(servers, reply, posted, rows, at, row, -1);
    }
  }

  lemma AfterCarries(servers: seq<string>, reply: nat -> Reply, before: seq<int>, o: Round, n: int)
    requires AllCarry(servers, reply, before + o.posts, o.rows, o.at)
    ensures var o' := After(servers, reply, o, n, |before|);
            AllCarry(servers, reply, before + o'.posts, o'.rows, o'.at)
  {
    var posted := before + o.posts;
    assert before + (o.posts + [n]) == posted + [n];
    CarryStep(servers, reply, posted, n, o.rows, o.at, OutcomeRow(servers, n, reply(|posted|)));
  }

  // The posts of a round follow those before it.
  lemma {:induction false} RoundCarries(servers: seq<string>, reply: nat -> Reply, before: seq<int>, nodes: seq<int>,
                                        start: Start)
    requires start.posts == |before|
    ensures var o := Through(servers, reply, nodes, start); AllCarry(servers, reply, before + o.posts, o.rows, o.at)
  {
    if nodes != [] {
      var front := nodes[..|nodes| - 1];
      RoundCarries(servers, reply, before, front, start);
      AfterCarries(servers, reply, before, Through(servers, reply, front, start), nodes[|nodes| - 1]);
    }
  }

  lemma OrderStep(at: seq<int>, low: nat, high: nat)
    requires InOrder(at, low, high) && low <= high
    ensures InOrder(at, low, high + 1) && InOrder(at + [high], low, high + 1) && InOrder(at + [-1], low, high)
  {
  }

  lemma {:induction false} RoundInOrder(servers: seq<string>, reply: nat -> Reply, nodes: seq<int>, start: Start)
    ensures var o := Through(servers, reply, nodes, start); InOrder(o.at, start.posts, start.posts + |o.posts|)
  {
    if nodes != [] {
      var o := Through(servers, reply, nodes[..|nodes| - 1], start);
      RoundInOrder(servers, reply, nodes[..|nodes| - 1], start);
      OrderStep(o.at, start.posts, start.posts + |o.posts|);
    }
  }

  // ---- which posts lead to an outcome ----

  ghost predicate PostsRecorded(reply: nat -> Reply, o: Round, start: Start) {
    forall k :: 0 <= k < |o.posts| ==> (start.posts + k in o.at <==> Recorded(reply, o.posts, start, k))
  }

  // The configured nodes on the retry list are those it starts with and those of failed posts.
  lemma RoundRetries(servers: seq<string>, reply: nat -> Reply, nodes: seq<int>, start: Start, n: int)
    requires Valid(servers, n)
    ensures var o := Through(servers, reply, nodes, start);
            n in o.retry <==> n in start.known || FailedPost(reply, o.posts, start, n)
  {
    ThroughIs(servers, reply, nodes, start);
    FailedValid(servers, reply, nodes, start, n);
  }

  lemma RecordedPrefix(reply: nat -> Reply, posts: seq<int>, n: int, start: Start, k: nat)
    requires k < |posts|
    ensures Recorded(reply, posts + [n], start, k) <==> Recorded(reply, posts, start, k)
  {
    assert forall j :: 0 <= j <= k ==> (posts + [n])[j] == posts[j];
  }

  lemma LastRecorded(reply: nat -> Reply, posts: seq<int>, n: int, start: Start)
    ensures Recorded(reply, posts + [n], start, |posts|) <==>
            || Succeeded(reply(start.posts + |posts|)) || n in start.known || FailedPost(reply, posts, start, n)
  {
    var all := posts + [n];
    assert all[|posts|] == n && forall j :: 0 <= j < |posts| ==> all[j] == posts[j];
  }

  lemma NextIn(at: seq<int>, low: nat, high: nat)
    requires InOrder(at, low, high)
    ensures high !in at && high in at + [high] && forall p :: p != high ==> (p in at + [high] <==> p in at)
    ensures forall p :: p >= 0 ==> (p in at + [-1] <==> p in at)
  {
  }

  lemma AfterRecords(servers: seq<string>, reply: nat -> Reply, o: Round, n: int, start: Start)
    requires PostsRecorded(reply, o, start) && InOrder(o.at, start.posts, start.posts + |o.posts|)
    requires Valid(servers, n) ==> (n in o.retry <==> n in start.known || FailedPost(reply, o.posts, start, n))
    ensures PostsRecorded(reply, After(servers, reply, o, n, start.posts), start)
  {
    NextIn(o.at, start.posts, start.posts + |o.posts|);
    if Valid(servers, n) {
      OneMorePost(reply, o, n, start, n in o.retry || Succeeded(reply(start.posts + |o.posts|)));
    }
  }

  lemma OneMorePost(reply: nat -> Reply, o: Round, n: int, start: Start, kept: bool)
    requires PostsRecorded(reply, o, start) && InOrder(o.at, start.posts, start.posts + |o.posts|)
    requires kept <==>
             || Succeeded(reply(start.posts + |o.posts|)) || n in start.known
             || FailedPost(reply, o.posts, start, n)
    ensures var at := if kept then o.at + [start.posts + |o.posts|] else o.at;
            PostsRecorded(reply, o.(posts := o.posts + [n], at := at), start)
  {
    NextIn(o.at, start.posts, start.posts + |o.posts|);
    LastRecorded(reply, o.posts, n, start);
    forall k | 0 <= k < |o.posts|
      ensures Recorded(reply, o.posts + [n], start, k) <==> Recorded(reply, o.posts, start, k)
    {
      RecordedPrefix(reply, o.posts, n, start, k);
    }
  }

  // A post leads to an outcome exactly when its answer is a success or its node had failed.
  lemma {:induction false} RoundRecords(servers: seq<string>, reply: nat -> Reply, nodes: seq<int>, start: Start)
    ensures PostsRecorded(reply, Through(servers, reply, nodes, start), start)
  {
    if nodes != [] {
      var front := nodes[..|nodes| - 1];
      RoundRecords(servers, reply, front, start);
      RoundInOrder(servers, reply, front, start);
      if Valid(servers, nodes[|nodes| - 1]) {
        RoundRetries(servers, reply, front, start, nodes[|nodes| - 1]);
      }
      AfterRecords(servers, reply, Through(servers, reply, front, start), nodes[|nodes| - 1], start);
    }
  }

  // ---- both rounds ----

  function Posted(servers: seq<string>, reply: nat -> Reply, nodes: seq<int>): seq<int> {
    ValidOnly(servers, nodes) + ValidOnly(servers, FirstFailures(servers, reply, nodes))
  }

  lemma CarryAppend(servers: seq<string>, reply: nat -> Reply, posted: seq<int>, again: seq<int>, rows1: seq<JobRow>,
                    at1: seq<int>, rows2: seq<JobRow>, at2: seq<int>)
    requires AllCarry(servers, reply, posted, rows1, at1) && AllCarry(servers, reply, posted + again, rows2, at2)
    ensures AllCarry(servers, reply, posted + again, rows1 + rows2, at1 + at2)
  {
    forall r | 0 <= r < |rows1| ensures CarriesAnswer(servers, reply, posted + again, rows1[r], at1[r]) {
      assert CarriesAnswer(servers, reply, posted, rows1[r], at1[r]);
    }
  }

  lemma OrderAppend(at1: seq<int>, at2: seq<int>, first: nat, all: nat)
    requires InOrder(at1, 0, first) && InOrder(at2, first, all) && first <= all
    ensures InOrder(at1 + at2, 0, all)
    ensures forall p :: 0 <= p < first ==> (p in at1 + at2 <==> p in at1)
    ensures forall p :: first <= p ==> (p in at1 + at2 <==> p in at2)
  {
  }

  // In the first round a post leads to an outcome if it is answered with code 200 and the
  // status ok and the version is recorded, or an earlier post to the same node was not; in the
  // second round always.
  ghost predicate Leads(reply: nat -> Reply, posted: seq<int>, first: nat, p: nat)
    requires p < |posted|
  {
    || p >= first
    || (reply(p).Answer? && reply(p) == Answer(200, Text("ok"), reply(p).result, false))
    || exists j :: 0 <= j < p && posted[j] == posted[p] &&
                   !(reply(j).Answer? && reply(j) == Answer(200, Text("ok"), reply(j).result, false))
  }

  ghost predicate AllLead(reply: nat -> Reply, posted: seq<int>, first: nat, at: seq<int>) {
    forall p :: 0 <= p < |posted| ==> (p in at <==> Leads(reply, posted, first, p))
  }

  lemma RecordedIs(reply: nat -> Reply, first: seq<int>, again: seq<int>, p: nat)
    requires p < |first|
    ensures Recorded(reply, first, FIRST, p) <==> Leads(reply, first + again, |first|, p)
  {
    assert forall j :: 0 <= j <= p ==> (first + again)[j] == first[j];
  }

  lemma BothLead(reply: nat -> Reply, o1: Round, o2: Round, second: Start)
    requires PostsRecorded(reply, o1, FIRST) && PostsRecorded(reply, o2, second)
    requires InOrder(o1.at, 0, |o1.posts|) && InOrder(o2.at, |o1.posts|, |o1.posts| + |o2.posts|)
    requires second.posts == |o1.posts| && forall k :: 0 <= k < |o2.posts| ==> Recorded(reply, o2.posts, second, k)
    ensures AllLead(reply, o1.posts + o2.posts, |o1.posts|, o1.at + o2.at)
  {
    var first := |o1.posts|;
    OrderAppend(o1.at, o2.at, first, first + |o2.posts|);
    forall p | 0 <= p < first + |o2.posts|
      ensures p in o1.at + o2.at <==> Leads(reply, o1.posts + o2.posts, first, p)
    {
      if p < first {
        RecordedIs(reply, o1.posts, o2.posts, p);
        assert FIRST.posts + p in o1.at <==> Recorded(reply, o1.posts, FIRST, p);
      } else {
        var k := p - first;
        assert Recorded(reply, o2.posts, second, k);
        assert second.posts + k in o2.at;
      }
    }
  }

  // Every outcome of a configured node carries the answer to a post of its own, to that node,
  // and outcomes come in the order of these posts; the other posts lead to none.
  lemma RowsCarryAnswers(servers: seq<string>, reply: nat -> Reply, nodes: seq<int>) returns (at: seq<int>)
    ensures AllCarry(servers, reply, Posted(servers, reply, nodes), AllRows(servers, reply, nodes), at)
    ensures InOrder(at, 0, |Posted(servers, reply, nodes)|)
    ensures AllLead(reply, Posted(servers, reply, nodes), |ValidOnly(servers, nodes)|, at)
  {
    var f, second := FirstFailures(servers, reply, nodes), Second(servers, reply, nodes);
    var o1, o2 := Through(servers, reply, nodes, FIRST), Through(servers, reply, f, second);
    at := o1.at + o2.at;
    ThroughIs(servers, reply, nodes, FIRST);
    ThroughIs(servers, reply, f, second);
    BothCarry(servers, reply, nodes, f, second);
    RoundInOrder(servers, reply, nodes, FIRST);
    RoundInOrder(servers, reply, f, second);
    OrderAppend(o1.at, o2.at, |o1.posts|, |o1.posts| + |o2.posts|);
    RoundRecords(servers, reply, nodes, FIRST);
    RoundRecords(servers, reply, f, second);
    forall k | 0 <= k < |o2.posts| ensures Recorded(reply, o2.posts, second, k) {
      SecondRoundRecords(servers, reply, nodes, k);
    }
    BothLead(reply, o1, o2, second);
  }

  lemma BothCarry(servers: seq<string>, reply: nat -> Reply, nodes: seq<int>, f: seq<int>, second: Start)
    requires second.posts == |Through(servers, reply, nodes, FIRST).posts|
    ensures var o1, o2 := Through(servers, reply, nodes, FIRST), Through(servers, reply, f, second);
            AllCarry(servers, reply, o1.posts + o2.posts, o1.rows + o2.rows, o1.at + o2.at)
  {
    var o1, o2 := Through(servers, reply, nodes, FIRST), Through(servers, reply, f, second);
    RoundCarries(servers, reply, [], nodes, FIRST);
    assert [] + o1.posts == o1.posts;
    RoundCarries(servers, reply, o1.posts, f, second);
    CarryAppend(servers, reply, o1.posts, o2.posts, o1.rows, o1.at, o2.rows, o2.at);
  }

  // The inserted rows are the outcomes at the positions where the result row is present, in
  // order.
  lemma {:induction false} InsertedAre(present: nat -> bool, rows: seq<JobRow>) returns (at: seq<nat>)
    ensures |at| == |Inserted(present, rows)|
    ensures forall k :: 0 <= k < |at| ==> at[k] < |rows| && Inserted(present, rows)[k] == rows[at[k]]
    ensures forall k, l :: 0 <= k < l < |at| ==> at[k] < at[l]
    ensures forall i :: 0 <= i < |rows| ==> (present(i) <==> i in at)
  {
    if rows == [] {
      at := [];
    } else {
      var n := |rows| - 1;
      at := InsertedAre(present, rows[..n]);
      if present(n) {
        at := at + [n];
      }
    }
  }

  // ---- which nodes are retried, and in which order ----

  // The i-th attempt of the first round fails: its node is not configured, or its answer is
  // not 200 with the status ok, or recording the version raised.
  predicate AttemptFails(servers: seq<string>, reply: nat -> Reply, nodes: seq<int>, i: nat)
    requires i < |nodes|
  {
    var r := reply(|ValidOnly(servers, nodes[..i])|);
    !(1 <= nodes[i] <= |servers| && r.Answer? && r == Answer(200, Text("ok"), r.result, false))
  }

  function Fails(servers: seq<string>, reply: nat -> Reply, nodes: seq<int>): seq<bool> {
    seq(|nodes|, i requires 0 <= i < |nodes| => AttemptFails(servers, reply, nodes, i))
  }

  // The k-th node on the list is that of the attempt first[k], its first to fail, ...
  ghost predicate FirstFailing(nodes: seq<int>, fails: seq<bool>, f: seq<int>, first: seq<nat>) {
    && |first| == |f| && |fails| == |nodes|
    && (forall k :: 0 <= k < |f| ==> first[k] < |nodes| && f[k] == nodes[first[k]] && fails[first[k]])
    && (forall k, i :: 0 <= k < |f| && 0 <= i < first[k] && nodes[i] == f[k] ==> !fails[i])
    && (forall k, l :: 0 <= k < l < |f| ==> first[k] < first[l])
  }

  // ... and the node of every failed attempt is listed.
  ghost predicate AllFailing(nodes: seq<int>, fails: seq<bool>, f: seq<int>) {
    |fails| == |nodes| && forall i :: 0 <= i < |nodes| && fails[i] ==> nodes[i] in f
  }

  lemma FailsSnoc(servers: seq<string>, reply: nat -> Reply, front: seq<int>, n: int)
    ensures Fails(servers, reply, front + [n]) ==
            Fails(servers, reply, front) + [!Passes(servers, n, AnswerTo(servers, reply, front, FIRST))]
  {
    var all := front + [n];
    assert all[..|front|] == front;
    forall i | 0 <= i < |front| ensures AttemptFails(servers, reply, all, i) == AttemptFails(servers, reply, front, i) {
      assert all[..i] == front[..i];
    }
  }

  lemma StillFirst(nodes: seq<int>, fails: seq<bool>, f: seq<int>, first: seq<nat>, n: int, failed: bool)
    requires FirstFailing(nodes, fails, f, first)
    ensures FirstFailing(nodes + [n], fails + [failed], f, first)
  {
  }

  lemma NewlyFirst(nodes: seq<int>, fails: seq<bool>, f: seq<int>, first: seq<nat>, n: int)
    requires FirstFailing(nodes, fails, f, first) && AllFailing(nodes, fails, f) && n !in f
    ensures FirstFailing(nodes + [n], fails + [true], f + [n], first + [|nodes|])
  {
    StillFirst(nodes, fails, f, first, n, true);
    assert forall i :: 0 <= i < |nodes| && nodes[i] == n ==> !fails[i];
  }

  lemma AllListed(nodes: seq<int>, fails: seq<bool>, f: seq<int>, n: int, failed: bool)
    requires AllFailing(nodes, fails, f)
    ensures n in f || !failed ==> AllFailing(nodes + [n], fails + [failed], f)
    ensures AllFailing(nodes + [n], fails + [failed], f + [n])
  {
  }

  // The retry list holds the nodes of the failed attempts, each once, in the order in which
  // they first failed.
  lemma {:induction false} RetriedInOrder(servers: seq<string>, reply: nat -> Reply, nodes: seq<int>)
    returns (first: seq<nat>)
    ensures FirstFailing(nodes, Fails(servers, reply, nodes), FirstFailures(servers, reply, nodes), first)
    ensures AllFailing(nodes, Fails(servers, reply, nodes), FirstFailures(servers, reply, nodes))
  {
    if nodes == [] {
      first := [];
    } else {
      var front, n := nodes[..|nodes| - 1], nodes[|nodes| - 1];
      assert nodes == front + [n];
      first := RetriedInOrder(servers, reply, front);
      first := RetriedStep(servers, reply, front, n, FirstFailures(servers, reply, front), first);
    }
  }

  lemma FailuresSnoc(servers: seq<string>, reply: nat -> Reply, front: seq<int>, n: int, f: seq<int>, failed: bool)
    requires f == FirstFailures(servers, reply, front)
    requires failed == !Passes(servers, n, AnswerTo(servers, reply, front, FIRST))
    ensures FirstFailures(servers, reply, front + [n]) == if n in f || !failed then f else f + [n]
  {
    OneMore(servers, reply, front, n, FIRST);
  }

  lemma RetriedStep(servers: seq<string>, reply: nat -> Reply, front: seq<int>, n: int, f: seq<int>, first: seq<nat>)
    returns (next: seq<nat>)
    requires f == FirstFailures(servers, reply, front)
    requires FirstFailing(front, Fails(servers, reply, front), f, first)
    requires AllFailing(front, Fails(servers, reply, front), f)
    ensures var f', fails := FirstFailures(servers, reply, front + [n]), Fails(servers, reply, front + [n]);
            FirstFailing(front + [n], fails, f', next) && AllFailing(front + [n], fails, f')
  {
    var failed := !Passes(servers, n, AnswerTo(servers, reply, front, FIRST));
    FailuresSnoc(servers, reply, front, n, f, failed);
    FailsSnoc(servers, reply, front, n);
    next := OneMoreAttempt(front, Fails(servers, reply, front), f, first, n, failed);
  }

  lemma OneMoreAttempt(nodes: seq<int>, fails: seq<bool>, f: seq<int>, first: seq<nat>, n: int, failed: bool)
    returns (next: seq<nat>)
    requires FirstFailing(nodes, fails, f, first) && AllFailing(nodes, fails, f)
    ensures var f' := if n in f || !failed then f else f + [n];
            FirstFailing(nodes + [n], fails + [failed], f', next) && AllFailing(nodes + [n], fails + [failed], f')
  {
    AllListed(nodes, fails, f, n, failed);
    if n in f || !failed {
      next := first;
      StillFirst(nodes, fails, f, first, n, failed);
    } else {
      next := first + [|nodes|];
      NewlyFirst(nodes, fails, f, first, n);
    }
  }
}
