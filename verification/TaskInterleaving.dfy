// Executions, clean-ups and user deletions of timer tasks, interleaved between any two
// database statements.
module TaskInterleaving {
  import opened Sequences
  import opened TaskRetention
  import E = TaskExecutor

  // A job row, of which only its result and whether its status is ok matter here.
  datatype StoredRow = StoredRow(resultId: nat, ok: bool)

  // Where an execution stands: between attempts; holding an outcome it has counted; having
  // read that its result row exists, before it commits the job row or the counts; ended.
  datatype Phase = Between | Holding(ok: bool) | Inserting(ok: bool) | Storing | Ended | Aborted

  // outcomes are those of its two rounds, in the order in which they are counted.
  datatype Execution = Execution(resultId: nat, outcomes: seq<bool>, pass: nat, fail: nat, phase: Phase)

  datatype State = State(
    results: map<nat, TaskResult>,
    jobRows: seq<StoredRow>,
    executions: map<nat, Execution>,
    cleanUps: map<nat, set<nat>>,  // results a clean-up has selected and not yet deleted
    nextId: nat)                   // ids are drawn from a sequence and never reused

  datatype Step =
    | Start(e: nat, taskId: int, time: int, id: nat, outcomes: seq<bool>)
    | Count(e: nat, ok: bool)
    | CheckRow(e: nat)
    | InsertRow(e: nat)
    | CheckResult(e: nat)
    | StoreCounts(e: nat)
    | Crash(e: nat)
    | SelectOutdated(c: nat, picks: set<nat>)
    | DeletePicks(c: nat)
    | DeleteResult(id: nat)
    | DeleteTask(taskId: int)

  function Without(rows: seq<StoredRow>, ids: set<nat>): seq<StoredRow> {
    if rows == [] then []
    else
      var front := Without(rows[..|rows| - 1], ids);
      if rows[|rows| - 1].resultId in ids then front else front + [rows[|rows| - 1]]
  }

  // Deleting results takes their job rows along.
  function Deleted(s: State, ids: set<nat>): State {
    s.(results := s.results - ids, jobRows := Without(s.jobRows, ids))
  }

  function With(s: State, e: nat, x: Execution): State {
    s.(executions := s.executions[e := x])
  }

  predicate InPhase(s: State, e: nat, p: Phase) {
    e in s.executions && s.executions[e].phase == p
  }

  // Both rounds are over.
  predicate Through(x: Execution) { |x.outcomes| <= x.pass + x.fail }

  function NextOutcome(x: Execution): bool
    requires !Through(x)
  {
    x.outcomes[x.pass + x.fail]
  }

  predicate Enabled(s: State, step: Step) {
    match step
    case Start(e, _, _, id, _) => e !in s.executions && s.nextId <= id
    case Count(e, ok) => InPhase(s, e, Between) && !Through(s.executions[e]) && ok == NextOutcome(s.executions[e])
    case CheckRow(e) => e in s.executions && s.executions[e].phase.Holding?
    case InsertRow(e) => e in s.executions && s.executions[e].phase.Inserting?
    case CheckResult(e) => InPhase(s, e, Between) && Through(s.executions[e])
    case StoreCounts(e) => InPhase(s, e, Storing)
    case Crash(e) => e in s.executions && !s.executions[e].phase.Ended?
    case SelectOutdated(c, picks) => c !in s.cleanUps && picks <= Finished(s.results)
    case DeletePicks(c) => c in s.cleanUps
    case DeleteResult(id) => id in s.results
    case DeleteTask(_) => true
  }

  // A commit whose result row has vanished violates the foreign key, or updates no row, and
  // aborts the execution.
  function Next(s: State, step: Step): State
    requires Enabled(s, step)
  {
    match step
    case Start(e, taskId, time, id, outcomes) =>
      s.(results := s.results[id := TaskResult(taskId, time, 0, 0)],
         executions := s.executions[e := Execution(id, outcomes, 0, 0, Between)], nextId := id + 1)
    case Count(e, ok) =>
      var x := s.executions[e];
      With(s, e, x.(pass := if ok then x.pass + 1 else x.pass, fail := if ok then x.fail else x.fail + 1,
                    phase := Holding(ok)))
    case CheckRow(e) =>
      var x := s.executions[e];
      With(s, e, x.(phase := if x.resultId in s.results then Inserting(x.phase.ok) else Between))
    case InsertRow(e) =>
      var x := s.executions[e];
      if x.resultId in s.results then
        With(s, e, x.(phase := Between)).(jobRows := s.jobRows + [StoredRow(x.resultId, x.phase.ok)])
      else With(s, e, x.(phase := Aborted))
    case CheckResult(e) =>
      var x := s.executions[e];
      With(s, e, x.(phase := if x.resultId in s.results then Storing else Ended))
    case StoreCounts(e) =>
      var x := s.executions[e];
      if x.resultId in s.results then
        With(s, e, x.(phase := Ended)).(results :=
          s.results[x.resultId := s.results[x.resultId].(passCount := x.pass, failCount := x.fail)])
      else With(s, e, x.(phase := Aborted))
    case Crash(e) => With(s, e, s.executions[e].(phase := Aborted))
    case SelectOutdated(c, picks) => s.(cleanUps := s.cleanUps[c := picks])
    case DeletePicks(c) => Deleted(s, s.cleanUps[c]).(cleanUps := s.cleanUps - {c})
    case DeleteResult(id) => Deleted(s, {id})
    case DeleteTask(taskId) => Deleted(s, set id <- s.results | s.results[id].taskId == taskId)
  }

  const INITIAL := State(map[], [], map[], map[], 0)

  // Every state of a run comes from the one before it by an enabled step.
  ghost predicate IsRun(states: seq<State>, steps: seq<Step>) {
    && |states| == |steps| + 1 && states[0] == INITIAL
    && forall i :: 0 <= i < |steps| ==> Enabled(states[i], steps[i]) && states[i + 1] == Next(states[i], steps[i])
  }

  // ---- the invariant ----

  function CountRows(rows: seq<StoredRow>, id: nat, ok: bool): nat {
    if rows == [] then 0
    else CountRows(rows[..|rows| - 1], id, ok) +
         if rows[|rows| - 1] == StoredRow(id, ok) then 1 else 0
  }

  predicate Live(x: Execution) { !x.phase.Ended? && !x.phase.Aborted? }

  // The outcome an execution has counted but not yet inserted.
  function Pending(x: Execution, ok: bool): nat {
    if (x.phase.Holding? || x.phase.Inserting?) && x.phase.ok == ok then 1 else 0
  }

  // While its result row exists, an execution's own counters are its job rows plus the
  // outcome in hand, and the stored counts are still 0 and 0.
  predicate ExecutionOk(s: State, e: nat)
    requires e in s.executions
  {
    var x := s.executions[e];
    && x.resultId < s.nextId
    && (Live(x) && x.resultId in s.results ==>
          && Unfinished(s.results[x.resultId])
          && x.pass == CountRows(s.jobRows, x.resultId, true) + Pending(x, true)
          && x.fail == CountRows(s.jobRows, x.resultId, false) + Pending(x, false))
    && (x.phase.Ended? && x.resultId in s.results ==>
          && s.results[x.resultId].passCount == x.pass == CountRows(s.jobRows, x.resultId, true)
          && s.results[x.resultId].failCount == x.fail == CountRows(s.jobRows, x.resultId, false))
  }

  // Stored counts are exactly the job rows.
  predicate ResultOk(s: State, id: nat)
    requires id in s.results
  {
    !Unfinished(s.results[id]) ==>
      && s.results[id].passCount == CountRows(s.jobRows, id, true)
      && s.results[id].failCount == CountRows(s.jobRows, id, false)
  }

  // What a clean-up has selected was finished, and stays so while it exists.
  predicate CleanUpOk(s: State, c: nat)
    requires c in s.cleanUps
  {
    forall id <- s.cleanUps[c] :: id < s.nextId && (id in s.results ==> !Unfinished(s.results[id]))
  }

  ghost predicate Inv(s: State) {
    && (forall e :: e in s.executions ==> ExecutionOk(s, e))
    && (forall e, f :: e in s.executions && f in s.executions && e != f ==>
          s.executions[e].resultId != s.executions[f].resultId)
    && (forall id :: id in s.results ==> id < s.nextId && ResultOk(s, id))
    && (forall i :: 0 <= i < |s.jobRows| ==> s.jobRows[i].resultId in s.results)
    && (forall c :: c in s.cleanUps ==> CleanUpOk(s, c))
  }

  lemma {:induction false} WithoutCount(rows: seq<StoredRow>, ids: set<nat>, id: nat, ok: bool)
    ensures id !in ids ==> CountRows(Without(rows, ids), id, ok) == CountRows(rows, id, ok)
  {
    if rows != [] {
      var front, last := rows[..|rows| - 1], rows[|rows| - 1];
      WithoutCount(front, ids, id, ok);
      if last.resultId !in ids {
        assert (Without(front, ids) + [last])[..|Without(front, ids)|] == Without(front, ids);
      }
    }
  }

  lemma {:induction false} WithoutOwners(rows: seq<StoredRow>, ids: set<nat>)
    ensures forall r <- Without(rows, ids) :: r in rows && r.resultId !in ids
  {
    if rows != [] {
      WithoutOwners(rows[..|rows| - 1], ids);
    }
  }

  lemma {:induction false} NoRowsNoCount(rows: seq<StoredRow>, id: nat, ok: bool)
    requires forall r <- rows :: r.resultId != id
    ensures CountRows(rows, id, ok) == 0
  {
    if rows != [] {
      NoRowsNoCount(rows[..|rows| - 1], id, ok);
    }
  }

  lemma CountSnoc(rows: seq<StoredRow>, r: StoredRow, id: nat, ok: bool)
    ensures CountRows(rows + [r], id, ok) == CountRows(rows, id, ok) + if r == StoredRow(id, ok) then 1 else 0
  {
    assert (rows + [r])[..|rows|] == rows;
  }

  lemma DeletedKeepsInv(s: State, ids: set<nat>)
    requires Inv(s)
    ensures Inv(Deleted(s, ids))
  {
    var t := Deleted(s, ids);
    WithoutOwners(s.jobRows, ids);
    forall id, ok | id !in ids ensures CountRows(t.jobRows, id, ok) == CountRows(s.jobRows, id, ok) {
      WithoutCount(s.jobRows, ids, id, ok);
    }
    forall e | e in t.executions ensures ExecutionOk(t, e) {
      assert ExecutionOk(s, e);
    }
    forall id | id in t.results ensures id < t.nextId && ResultOk(t, id) {
      assert ResultOk(s, id);
    }
    forall i | 0 <= i < |t.jobRows| ensures t.jobRows[i].resultId in t.results {
      assert t.jobRows[i] in s.jobRows;
    }
    forall c | c in t.cleanUps ensures CleanUpOk(t, c) {
      assert CleanUpOk(s, c);
    }
  }

  lemma StartKeepsInv(s: State, e: nat, taskId: int, time: int, id: nat, outcomes: seq<bool>)
    requires Inv(s) && Enabled(s, Start(e, taskId, time, id, outcomes))
    ensures Inv(Next(s, Start(e, taskId, time, id, outcomes)))
  {
    var t := Next(s, Start(e, taskId, time, id, outcomes));
    forall r <- s.jobRows ensures r.resultId != id {
    }
    NoRowsNoCount(s.jobRows, id, true);
    NoRowsNoCount(s.jobRows, id, false);
    forall f | f in t.executions ensures ExecutionOk(t, f) {
      if f != e {
        assert ExecutionOk(s, f);
      }
    }
    forall r | r in t.results ensures r < t.nextId && ResultOk(t, r) {
      if r != id {
        assert ResultOk(s, r);
      }
    }
    forall c | c in t.cleanUps ensures CleanUpOk(t, c) {
      assert CleanUpOk(s, c);
    }
  }

  // t differs from s at most in execution e and in what belongs to its result.
  ghost predicate OnlyAt(s: State, t: State, e: nat) {
    && e in s.executions && t.executions.Keys == s.executions.Keys && t.results.Keys == s.results.Keys
    && t.cleanUps == s.cleanUps && t.nextId == s.nextId
    && (forall f :: f in s.executions && f != e ==> t.executions[f] == s.executions[f])
    && var own := s.executions[e].resultId;
       && t.executions[e].resultId == own
       && (forall id :: id in s.results && id != own ==> t.results[id] == s.results[id])
       && (forall id, ok :: id != own ==> CountRows(t.jobRows, id, ok) == CountRows(s.jobRows, id, ok))
       && (own in s.results && !Unfinished(s.results[own]) ==> !Unfinished(t.results[own]))
  }

  // Nothing else can be harmed by such a change.
  lemma OthersKeepInv(s: State, t: State, e: nat)
    requires Inv(s) && OnlyAt(s, t, e) && ExecutionOk(t, e)
    requires s.executions[e].resultId in t.results ==> ResultOk(t, s.executions[e].resultId)
    requires forall i :: 0 <= i < |t.jobRows| ==> t.jobRows[i].resultId in t.results
    ensures Inv(t)
  {
    forall f | f in t.executions ensures ExecutionOk(t, f) {
      assert ExecutionOk(s, f);
    }
    forall id | id in t.results ensures id < t.nextId && ResultOk(t, id) {
      assert ResultOk(s, id);
    }
    forall c | c in t.cleanUps ensures CleanUpOk(t, c) {
      assert CleanUpOk(s, c);
    }
  }

  // Steps that change nothing but the execution itself.
  lemma OwnStepKeepsInv(s: State, e: nat, x: Execution)
    requires Inv(s) && e in s.executions && x.resultId == s.executions[e].resultId && ExecutionOk(With(s, e, x), e)
    ensures Inv(With(s, e, x))
  {
    assert x.resultId in s.results ==> ResultOk(s, x.resultId);
    OthersKeepInv(s, With(s, e, x), e);
  }

  // The inserted row and the outcome no longer in hand balance each other.
  lemma InsertedRow(s: State, t: State, e: nat, x: Execution, row: StoredRow)
    requires Inv(s) && Enabled(s, InsertRow(e)) && t == Next(s, InsertRow(e))
    requires x == s.executions[e] && x.resultId in s.results && row == StoredRow(x.resultId, x.phase.ok)
    ensures OnlyAt(s, t, e) && ExecutionOk(t, e) && ResultOk(t, x.resultId)
  {
    assert ExecutionOk(s, e);
    CountSnoc(s.jobRows, row, x.resultId, true);
    CountSnoc(s.jobRows, row, x.resultId, false);
    forall id, ok | id != x.resultId ensures CountRows(t.jobRows, id, ok) == CountRows(s.jobRows, id, ok) {
      CountSnoc(s.jobRows, row, id, ok);
    }
  }

  lemma InsertKeepsInv(s: State, e: nat)
    requires Inv(s) && Enabled(s, InsertRow(e))
    ensures Inv(Next(s, InsertRow(e)))
  {
    var x := s.executions[e];
    if x.resultId in s.results {
      InsertedRow(s, Next(s, InsertRow(e)), e, x, StoredRow(x.resultId, x.phase.ok));
      OthersKeepInv(s, Next(s, InsertRow(e)), e);
    } else {
      assert ExecutionOk(s, e);
      OwnStepKeepsInv(s, e, x.(phase := Aborted));
    }
  }

  lemma StoreKeepsInv(s: State, e: nat)
    requires Inv(s) && Enabled(s, StoreCounts(e))
    ensures Inv(Next(s, StoreCounts(e)))
  {
    assert ExecutionOk(s, e);
    OthersKeepInv(s, Next(s, StoreCounts(e)), e);
  }

  lemma OwnStep(s: State, step: Step, e: nat)
    requires Inv(s) && Enabled(s, step)
    requires step == CheckRow(e) || step == CheckResult(e) || step == Crash(e) || (step.Count? && step.e == e)
    ensures Inv(Next(s, step))
  {
    assert ExecutionOk(s, e);
    OwnStepKeepsInv(s, e, Next(s, step).executions[e]);
  }

  lemma StepKeepsInv(s: State, step: Step)
    requires Inv(s) && Enabled(s, step)
    ensures Inv(Next(s, step))
  {
    match step
    case Start(e, taskId, time, id, outcomes) => StartKeepsInv(s, e, taskId, time, id, outcomes);
    case Count(e, ok) => OwnStep(s, step, e);
    case CheckRow(e) => OwnStep(s, step, e);
    case InsertRow(e) => InsertKeepsInv(s, e);
    case CheckResult(e) => OwnStep(s, step, e);
    case StoreCounts(e) => StoreKeepsInv(s, e);
    case Crash(e) => OwnStep(s, step, e);
    case SelectOutdated(c, picks) =>
      SelectKeepsInv(s, c, picks);
    case DeletePicks(c) =>
      DeletedKeepsInv(s, s.cleanUps[c]);
      ForgetKeepsInv(Deleted(s, s.cleanUps[c]), c);
    case DeleteResult(id) => DeletedKeepsInv(s, {id});
    case DeleteTask(taskId) => DeletedKeepsInv(s, set id <- s.results | s.results[id].taskId == taskId);
  }

  lemma SelectKeepsInv(s: State, c: nat, picks: set<nat>)
    requires Inv(s) && picks <= Finished(s.results)
    ensures Inv(s.(cleanUps := s.cleanUps[c := picks]))
  {
    var t := s.(cleanUps := s.cleanUps[c := picks]);
    assert forall e :: e in s.executions ==> ExecutionOk(s, e) == ExecutionOk(t, e);
    assert forall id :: id in s.results ==> ResultOk(s, id) == ResultOk(t, id);
    forall d | d in t.cleanUps ensures CleanUpOk(t, d) {
      assert d != c ==> CleanUpOk(s, d);
    }
  }

  lemma ForgetKeepsInv(s: State, c: nat)
    requires Inv(s)
    ensures Inv(s.(cleanUps := s.cleanUps - {c}))
  {
    var t := s.(cleanUps := s.cleanUps - {c});
    assert forall e :: e in s.executions ==> ExecutionOk(s, e) == ExecutionOk(t, e);
    assert forall id :: id in s.results ==> ResultOk(s, id) == ResultOk(t, id);
    forall d | d in t.cleanUps ensures CleanUpOk(t, d) {
      assert CleanUpOk(s, d);
    }
  }

  lemma {:induction false} RunKeepsInv(states: seq<State>, steps: seq<Step>, i: nat)
    requires IsRun(states, steps) && i < |states|
    ensures Inv(states[i])
  {
    if i > 0 {
      RunKeepsInv(states, steps, i - 1);
      StepKeepsInv(states[i - 1], steps[i - 1]);
    }
  }

  // ---- how far an execution has come ----

  function CountTrue(bs: seq<bool>): (n: nat)
    ensures n <= |bs|
  {
    if bs == [] then 0 else CountTrue(bs[..|bs| - 1]) + if bs[|bs| - 1] then 1 else 0
  }

  // The counters are those of the outcomes so far, and all of them once the rounds are over.
  predicate Progressed(x: Execution) {
    && x.pass + x.fail <= |x.outcomes|
    && x.pass == CountTrue(x.outcomes[..x.pass + x.fail])
    && (x.phase.Storing? || x.phase.Ended? ==> x.pass + x.fail == |x.outcomes|)
  }

  lemma CountOneMore(bs: seq<bool>, n: nat)
    requires n < |bs|
    ensures CountTrue(bs[..n + 1]) == CountTrue(bs[..n]) + if bs[n] then 1 else 0
  {
    Snoc(bs, n);
  }

  lemma StepKeepsProgress(s: State, step: Step, e: nat)
    requires Enabled(s, step) && e in Next(s, step).executions
    requires e in s.executions ==> Progressed(s.executions[e])
    ensures Progressed(Next(s, step).executions[e])
  {
    if step.Count? && step.e == e {
      CountOneMore(s.executions[e].outcomes, s.executions[e].pass + s.executions[e].fail);
    }
  }

  lemma {:induction false} RunKeepsProgress(states: seq<State>, steps: seq<Step>, i: nat, e: nat)
    requires IsRun(states, steps) && i < |states| && e in states[i].executions
    ensures Progressed(states[i].executions[e])
  {
    if i > 0 {
      if e in states[i - 1].executions {
        RunKeepsProgress(states, steps, i - 1, e);
      }
      assert Enabled(states[i - 1], steps[i - 1]) && states[i - 1 + 1] == Next(states[i - 1], steps[i - 1]);
      StepKeepsProgress(states[i - 1], steps[i - 1], e);
    }
  }

  // ---- what holds over every interleaving ----

  // A clean-up deletes only results whose counts have been stored, never one whose
  // execution is still going on.
  lemma CleanUpSparesRunning(states: seq<State>, steps: seq<Step>, i: nat, id: nat)
    requires IsRun(states, steps) && i < |steps| && steps[i].DeletePicks?
    requires id in states[i].results && id !in states[i + 1].results
    ensures !Unfinished(states[i].results[id])
    ensures forall e :: e in states[i].executions && states[i].executions[e].resultId == id ==>
              !Live(states[i].executions[e])
  {
    RunKeepsInv(states, steps, i);
    var s := states[i];
    forall e | e in s.executions && s.executions[e].resultId == id ensures !Live(s.executions[e]) {
      assert ExecutionOk(s, e);
    }
  }

  function RowsOf(rows: seq<StoredRow>, row: StoredRow): set<int> {
    set i | 0 <= i < |rows| && rows[i] == row
  }

  lemma RowsOfSnoc(rows: seq<StoredRow>, last: StoredRow, row: StoredRow)
    ensures RowsOf(rows + [last], row) == RowsOf(rows, row) + if last == row then {|rows|} else {}
    ensures |rows| !in RowsOf(rows, row)
  {
    assert forall i :: 0 <= i < |rows| ==> (rows + [last])[i] == rows[i];
    assert (rows + [last])[|rows|] == last;
  }

  // The job rows of a result with an outcome, counted.
  lemma {:induction false} CountRowsIs(rows: seq<StoredRow>, id: nat, ok: bool)
    ensures CountRows(rows, id, ok) == |RowsOf(rows, StoredRow(id, ok))|
  {
    if rows != [] {
      var front, last := rows[..|rows| - 1], rows[|rows| - 1];
      assert rows == front + [last];
      CountRowsIs(front, id, ok);
      RowsOfSnoc(front, last, StoredRow(id, ok));
    }
  }

  // A surviving result with stored counts has exactly that many ok and non-ok job rows.
  lemma StoredCountsAreRows(states: seq<State>, steps: seq<Step>, i: nat, id: nat)
    requires IsRun(states, steps) && i < |states| && id in states[i].results
    ensures var s := states[i];
            s.results[id].passCount > 0 || s.results[id].failCount > 0 ==>
              && s.results[id].passCount == |RowsOf(s.jobRows, StoredRow(id, true))|
              && s.results[id].failCount == |RowsOf(s.jobRows, StoredRow(id, false))|
  {
    RunKeepsInv(states, steps, i);
    assert ResultOk(states[i], id);
    CountRowsIs(states[i].jobRows, id, true);
    CountRowsIs(states[i].jobRows, id, false);
  }

  // When an execution has ended and its result survives, the stored counts are its own, its
  // job rows add up to them, and they count every outcome of its rounds.
  lemma EndedCountsSurvive(states: seq<State>, steps: seq<Step>, i: nat, e: nat)
    requires IsRun(states, steps) && i < |states|
    requires e in states[i].executions && states[i].executions[e].phase.Ended?
    ensures var s, x := states[i], states[i].executions[e];
            x.resultId in s.results ==>
              && s.results[x.resultId].passCount == x.pass == CountRows(s.jobRows, x.resultId, true)
              && s.results[x.resultId].failCount == x.fail == CountRows(s.jobRows, x.resultId, false)
              && x.pass == CountTrue(x.outcomes) && x.pass + x.fail == |x.outcomes|
  {
    RunKeepsInv(states, steps, i);
    RunKeepsProgress(states, steps, i, e);
    assert ExecutionOk(states[i], e);
    Whole(states[i].executions[e].outcomes);
  }

  // The outcomes of an execution, read off its rows.
  predicate OutcomesOf(outcomes: seq<bool>, rows: seq<E.JobRow>) {
    |outcomes| == |rows| && forall r :: 0 <= r < |rows| ==> (outcomes[r] <==> rows[r].status == E.Text("ok"))
  }

  lemma {:induction false} CountOfOks(outcomes: seq<bool>, rows: seq<E.JobRow>)
    requires OutcomesOf(outcomes, rows)
    ensures CountTrue(outcomes) == E.CountOk(rows)
  {
    if rows != [] {
      var n := |rows| - 1;
      CountOfOks(outcomes[..n], rows[..n]);
    }
  }

  // So whatever the nodes answered, and whatever else went on meanwhile: the stored counts of
  // an execution over these nodes are the numbers of its outcomes whose status is ok and is
  // not, they add up to the number of nodes, and so do its job rows.
  lemma StoredCountsAreTheNodes(states: seq<State>, steps: seq<Step>, i: nat, e: nat, servers: seq<string>,
                                reply: nat -> E.Reply, nodes: seq<int>)
    requires IsRun(states, steps) && i < |states|
    requires e in states[i].executions && states[i].executions[e].phase.Ended?
    requires OutcomesOf(states[i].executions[e].outcomes, E.AllRows(servers, reply, nodes))
    ensures var s, id, rows := states[i], states[i].executions[e].resultId, E.AllRows(servers, reply, nodes);
            id in s.results ==>
              && s.results[id].passCount == |set r | 0 <= r < |rows| && rows[r].status == E.Text("ok")|
              && s.results[id].failCount == |set r | 0 <= r < |rows| && rows[r].status != E.Text("ok")|
              && s.results[id].passCount + s.results[id].failCount == |nodes|
              && CountRows(s.jobRows, id, true) + CountRows(s.jobRows, id, false) == |nodes|
  {
    EndedCountsSurvive(states, steps, i, e);
    CountOfOks(states[i].executions[e].outcomes, E.AllRows(servers, reply, nodes));
    E.CountsArePositions(E.AllRows(servers, reply, nodes));
    E.EveryOccurrenceCounted(servers, reply, nodes);
  }

  // No job row outlives its result.
  lemma JobRowsHaveResults(states: seq<State>, steps: seq<Step>, i: nat)
    requires IsRun(states, steps) && i < |states|
    ensures forall r <- states[i].jobRows :: r.resultId in states[i].results
  {
    RunKeepsInv(states, steps, i);
  }
}
