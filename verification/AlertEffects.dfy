// What one evaluation sends, written out: which lines in which order, what scrapyd is asked to
// do, whether a message and a report go out, and what is remembered.
module AlertEffects {
  import opened AlertEngine
  import opened Options
  import opened Sequences

  // ---- the lines ----

  lemma {:induction false} CountLineIn(i: Input, kinds: seq<Kind>, line: Line)
    ensures line in CountLines(i, kinds) <==>
            && line.CountLine? && line.kind in kinds
            && line.count == i.count(line.kind) && line.threshold == i.settings.threshold(line.kind)
  {
    if kinds != [] {
      var front, k := kinds[..|kinds| - 1], kinds[|kinds| - 1];
      CountLineIn(i, front, line);
      assert line.CountLine? ==> (line.kind in kinds <==> line.kind in front || line.kind == k);
    }
  }

  lemma FiredIff(st: AlertState, i: Input, k: Kind)
    ensures k in FiredKinds(st, i, KINDS) <==> Fires(st, i, k)
  {
    EveryKind();
    FiredIffFires(st, i, KINDS, k);
  }

  // The strongest action that the kinds with a line in this list ask for.
  ghost predicate Asks(i: Input, lines: seq<Line>, action: Action) {
    match action
    case NoAction => false
    case ForceStop => exists l <- lines :: l.CountLine? && i.settings.forceStop(l.kind)
    case Stop =>
      && (exists l <- lines :: l.CountLine? && i.settings.stop(l.kind))
      && forall l <- lines :: l.CountLine? ==> !i.settings.forceStop(l.kind)
  }

  // The four parts a message is made of.
  datatype Parts = Parts(counts: seq<Line>, finish: seq<Line>, running: seq<Line>, action: seq<Line>)

  ghost function PartsOf(st: AlertState, i: Input): Parts {
    var fired := FiredKinds(st, i, KINDS);
    var action := Join(i, fired);
    Parts(CountLines(i, fired), if FinishNoticed(st, i) && i.group.NoGroup? then [FinishedLine] else [],
          if RunningNoticed(st, i) then [RunningLine] else [],
          if action != NoAction && i.running then [ActionLine(action)] else [])
  }

  function Joined(p: Parts): seq<Line> { p.counts + p.finish + p.running + p.action }

  lemma LinesArePartsOf(st: AlertState, i: Input)
    ensures EffectsOf(st, i).lines == Joined(PartsOf(st, i))
  {
  }

  // A kind has a line exactly when its threshold is set and reached and the count is not the
  // remembered one; the line carries both numbers.
  lemma CountLinesAre(st: AlertState, i: Input, k: Kind, n: nat, t: int)
    ensures CountLine(k, n, t) in EffectsOf(st, i).lines <==>
            && t == i.settings.threshold(k) && n == i.count(k)
            && t > 0 && n >= t && (k in st.counts ==> st.counts[k] != n)
  {
    CountLineIn(i, FiredKinds(st, i, KINDS), CountLine(k, n, t));
    FiredIff(st, i, k);
  }

  // The other lines: the end of a job outside any group, if that is asked for and was not
  // noticed before; a running job, when the interval is over; and the action on one.
  lemma NoticesAre(st: AlertState, i: Input)
    ensures FinishedLine in EffectsOf(st, i).lines <==>
            i.finished && !st.finished && i.group == NoGroup && i.settings.onFinished
    ensures RunningLine in EffectsOf(st, i).lines <==>
            && i.running && i.settings.runningInterval > 0.0
            && i.tested >= st.lastRunning + i.settings.runningInterval
  {
    CountLineIn(i, FiredKinds(st, i, KINDS), FinishedLine);
    CountLineIn(i, FiredKinds(st, i, KINDS), RunningLine);
  }

  lemma AskedIsJoin(i: Input, fired: seq<Kind>, action: Action)
    ensures Asks(i, CountLines(i, fired), action) <==> action == Join(i, fired) && action != NoAction
  {
    forall k | k in fired ensures CountLine(k, i.count(k), i.settings.threshold(k)) in CountLines(i, fired) {
      CountLineIn(i, fired, CountLine(k, i.count(k), i.settings.threshold(k)));
    }
    forall l | l in CountLines(i, fired) ensures l.CountLine? && l.kind in fired {
      CountLineIn(i, fired, l);
    }
  }

  lemma SameAsked(i: Input, counts: seq<Line>, lines: seq<Line>, action: Action)
    requires forall l: Line :: l.CountLine? ==> (l in lines <==> l in counts)
    ensures Asks(i, lines, action) <==> Asks(i, counts, action)
  {
  }

  lemma CountsOnly(p: Parts, l: Line)
    requires l.CountLine? && l !in p.finish && l !in p.running && l !in p.action
    ensures l in Joined(p) <==> l in p.counts
  {
  }

  // An action is taken on a running job only: two cancels if some alerted kind says
  // force-stop, else one if some alerted kind says stop; and the message says which.
  lemma ActionsAre(st: AlertState, i: Input, action: Action)
    ensures var r := EffectsOf(st, i);
            && (ActionLine(action) in r.lines <==> i.running && Asks(i, r.lines, action))
            && (r.cancels == 2 <==> i.running && Asks(i, r.lines, ForceStop))
            && (r.cancels == 1 <==> i.running && Asks(i, r.lines, Stop))
            && r.cancels <= 2
  {
    var fired := FiredKinds(st, i, KINDS);
    var counts, lines := CountLines(i, fired), EffectsOf(st, i).lines;
    forall l: Line | l.CountLine? ensures l in lines <==> l in counts {
      LinesArePartsOf(st, i);
      CountsOnly(PartsOf(st, i), l);
    }
    forall a: Action ensures Asks(i, lines, a) <==> a == Join(i, fired) && a != NoAction {
      SameAsked(i, counts, lines, a);
      AskedIsJoin(i, fired, a);
    }
    CountLineIn(i, fired, ActionLine(action));
  }

  // ---- their order ----

  function Place(l: Line): nat {
    match l
    case CountLine(Critical, _, _) => 0
    case CountLine(Error, _, _) => 1
    case CountLine(Warning, _, _) => 2
    case CountLine(Redirect, _, _) => 3
    case CountLine(Retry, _, _) => 4
    case CountLine(Ignore, _, _) => 5
    case FinishedLine => 6
    case RunningLine => 7
    case ActionLine(_) => 8
  }

  ghost predicate Placed(lines: seq<Line>, low: nat, high: nat) {
    && (forall a :: 0 <= a < |lines| ==> low <= Place(lines[a]) < high)
    && forall a, b :: 0 <= a < b < |lines| ==> Place(lines[a]) < Place(lines[b])
  }

  lemma PlacedAppend(a: seq<Line>, b: seq<Line>, low: nat, mid: nat, high: nat)
    requires Placed(a, low, mid) && Placed(b, mid, high) && low <= mid <= high
    ensures Placed(a + b, low, high)
  {
  }

  lemma KindPlace(n: nat, count: nat, threshold: int)
    requires n < |KINDS|
    ensures Place(CountLine(KINDS[n], count, threshold)) == n
  {
  }

  lemma PlacedSnoc(counts: seq<Line>, line: Line, n: nat)
    requires Placed(counts, 0, n) && Place(line) == n
    ensures Placed(counts + [line], 0, n + 1) && Placed(counts, 0, n + 1)
  {
    PlacedAppend(counts, [line], 0, n, n + 1);
  }

  lemma LinesSnoc(st: AlertState, i: Input, kinds: seq<Kind>, k: Kind, counts: seq<Line>, line: Line)
    requires counts == CountLines(i, FiredKinds(st, i, kinds))
    requires line == CountLine(k, i.count(k), i.settings.threshold(k))
    ensures CountLines(i, FiredKinds(st, i, kinds + [k])) == if Fires(st, i, k) then counts + [line] else counts
  {
    var fired := FiredKinds(st, i, kinds);
    KindsSnoc(st, i, kinds, k);
    FiredSnoc(i, fired, k);
    assert fired + [] == fired;
  }

  lemma {:induction false} CountsPlaced(st: AlertState, i: Input, kinds: seq<Kind>)
    requires forall n :: 0 <= n < |kinds| ==>
               Place(CountLine(kinds[n], i.count(kinds[n]), i.settings.threshold(kinds[n]))) == n
    ensures Placed(CountLines(i, FiredKinds(st, i, kinds)), 0, |kinds|)
  {
    if kinds != [] {
      var front, k := kinds[..|kinds| - 1], kinds[|kinds| - 1];
      assert kinds == front + [k];
      CountsPlaced(st, i, front);
      var counts, line := CountLines(i, FiredKinds(st, i, front)), CountLine(k, i.count(k), i.settings.threshold(k));
      LinesSnoc(st, i, front, k, counts, line);
      PlacedSnoc(counts, line, |front|);
    }
  }

  // No line comes twice, and they come in the order of the kinds, then the end of the job, the
  // running notice and the action.
  lemma LinesInOrder(st: AlertState, i: Input)
    ensures Placed(EffectsOf(st, i).lines, 0, 9)
  {
    var p := PartsOf(st, i);
    LinesArePartsOf(st, i);
    forall n | 0 <= n < |KINDS|
      ensures Place(CountLine(KINDS[n], i.count(KINDS[n]), i.settings.threshold(KINDS[n]))) == n
    {
      KindPlace(n, i.count(KINDS[n]), i.settings.threshold(KINDS[n]));
    }
    CountsPlaced(st, i, KINDS);
    PlacedAppend(p.counts, p.finish, 0, 6, 7);
    PlacedAppend(p.counts + p.finish, p.running, 0, 7, 8);
    PlacedAppend(p.counts + p.finish + p.running, p.action, 0, 8, 9);
  }

  // ---- what goes out, and what stays ----

  // A message goes out for any line, but only in working time; a report on a finished job of a
  // group goes out at any time, if the group is to be notified and the end was not noticed
  // before.
  lemma SentWhen(st: AlertState, i: Input)
    ensures EffectsOf(st, i).dispatched <==> i.settings.workingTime && exists l: Line :: l in EffectsOf(st, i).lines
    ensures EffectsOf(st, i).groupReport <==> i.finished && !st.finished && i.group == Group(true)
  {
    var lines := EffectsOf(st, i).lines;
    if lines != [] {
      assert lines[0] in lines;
    }
  }

  // Remembered are the counts of the alerted kinds beside the earlier ones, that the end of the
  // job was noticed, in a group or by a line, and when the last running notice was recorded.
  lemma RememberedIs(st: AlertState, i: Input, k: Kind)
    ensures var lines, next := EffectsOf(st, i).lines, EffectsOf(st, i).state;
            var alerted := CountLine(k, i.count(k), i.settings.threshold(k)) in lines;
            && (k in next.counts <==> alerted || k in st.counts)
            && (k in next.counts ==> next.counts[k] == if alerted then i.count(k) else st.counts[k])
            && (next.finished <==> st.finished || FinishedLine in lines || (i.finished && i.group.Group?))
            && next.lastRunning == if RunningLine in lines then i.recorded else st.lastRunning
  {
    NoticesAre(st, i);
    CountLinesAre(st, i, k, i.count(k), i.settings.threshold(k));
    RememberedAt(st, i, k);
  }

  // ---- over a run ----

  // What the n-th evaluation of a run does, after those before it.
  ghost function At(st: AlertState, run: seq<Input>, n: nat): Effects
    requires n < |run|
  {
    EffectsOf(Through(st, run[..n]), run[n])
  }

  // Each evaluation starts from what the one before it remembered.
  lemma ThroughIs(st: AlertState, run: seq<Input>, n: nat)
    requires n < |run|
    ensures Through(st, run[..0]) == st && Through(st, run[..n + 1]) == At(st, run, n).state
  {
    Snoc(run, n);
  }

  lemma SameBefore(st: AlertState, front: seq<Input>, i: Input, n: nat)
    requires n < |front|
    ensures At(st, front + [i], n) == At(st, front, n) && (front + [i])[n] == front[n]
    ensures (front + [i])[..n] == front[..n]
  {
  }

  lemma AtEnd(st: AlertState, front: seq<Input>, i: Input)
    ensures At(st, front + [i], |front|) == EffectsOf(Through(st, front), i) && (front + [i])[|front|] == i
    ensures (front + [i])[..|front|] == front
  {
  }

  // The n-th evaluation has a line for this kind, ...
  ghost predicate Alerts(st: AlertState, run: seq<Input>, n: nat, k: Kind)
    requires n < |run|
  {
    CountLine(k, run[n].count(k), run[n].settings.threshold(k)) in At(st, run, n).lines
  }

  // ... the running line, ...
  ghost predicate SaysRunning(st: AlertState, run: seq<Input>, n: nat)
    requires n < |run|
  {
    RunningLine in At(st, run, n).lines
  }

  // ... or notices the end of the job, by a line or for its group.
  ghost predicate NoticesEnd(st: AlertState, run: seq<Input>, n: nat)
    requires n < |run|
  {
    || FinishedLine in At(st, run, n).lines
    || (run[n].finished && run[n].group.Group? && !Through(st, run[..n]).finished)
  }

  lemma AsBefore(st: AlertState, front: seq<Input>, i: Input, n: nat, k: Kind)
    requires n < |front|
    ensures Alerts(st, front + [i], n, k) == Alerts(st, front, n, k)
    ensures SaysRunning(st, front + [i], n) == SaysRunning(st, front, n)
    ensures NoticesEnd(st, front + [i], n) == NoticesEnd(st, front, n)
  {
    SameBefore(st, front, i, n);
  }

  lemma LastAlerts(st: AlertState, front: seq<Input>, i: Input, k: Kind)
    ensures Alerts(st, front + [i], |front|, k) == Fires(Through(st, front), i, k)
  {
    AtEnd(st, front, i);
    CountLinesAre(Through(st, front), i, k, i.count(k), i.settings.threshold(k));
  }

  lemma LastNotices(st: AlertState, front: seq<Input>, i: Input)
    ensures SaysRunning(st, front + [i], |front|) == RunningNoticed(Through(st, front), i)
    ensures NoticesEnd(st, front + [i], |front|) == FinishNoticed(Through(st, front), i)
  {
    AtEnd(st, front, i);
    NoticesAre(Through(st, front), i);
  }

  ghost function AlertFlags(st: AlertState, run: seq<Input>, k: Kind): (r: seq<bool>)
    ensures |r| == |run| && forall n :: 0 <= n < |run| ==> r[n] == Alerts(st, run, n, k)
  {
    seq(|run|, n requires 0 <= n < |run| => Alerts(st, run, n, k))
  }

  ghost function RunningFlags(st: AlertState, run: seq<Input>): (r: seq<bool>)
    ensures |r| == |run| && forall n :: 0 <= n < |run| ==> r[n] == SaysRunning(st, run, n)
  {
    seq(|run|, n requires 0 <= n < |run| => SaysRunning(st, run, n))
  }

  ghost function EndFlags(st: AlertState, run: seq<Input>): (r: seq<bool>)
    ensures |r| == |run| && forall n :: 0 <= n < |run| ==> r[n] == NoticesEnd(st, run, n)
  {
    seq(|run|, n requires 0 <= n < |run| => NoticesEnd(st, run, n))
  }

  lemma AlertFlagsSnoc(st: AlertState, front: seq<Input>, i: Input, k: Kind)
    ensures AlertFlags(st, front + [i], k) == AlertFlags(st, front, k) + [Fires(Through(st, front), i, k)]
  {
    var p, q := AlertFlags(st, front + [i], k), AlertFlags(st, front, k);
    forall n: nat | n < |front| ensures p[n] == q[n] {
      AsBefore(st, front, i, n, k);
    }
    LastAlerts(st, front, i, k);
    OneLonger(p, q, Fires(Through(st, front), i, k));
  }

  lemma RunningFlagsSnoc(st: AlertState, front: seq<Input>, i: Input)
    ensures RunningFlags(st, front + [i]) == RunningFlags(st, front) + [RunningNoticed(Through(st, front), i)]
  {
    var p, q := RunningFlags(st, front + [i]), RunningFlags(st, front);
    forall n: nat | n < |front| ensures p[n] == q[n] {
      AsBefore(st, front, i, n, Critical);
    }
    LastNotices(st, front, i);
    OneLonger(p, q, RunningNoticed(Through(st, front), i));
  }

  lemma EndFlagsSnoc(st: AlertState, front: seq<Input>, i: Input, noticed: bool)
    requires noticed == NoticesEnd(st, front + [i], |front|)
    ensures EndFlags(st, front + [i]) == EndFlags(st, front) + [noticed]
  {
    var p, q := EndFlags(st, front + [i]), EndFlags(st, front);
    forall n: nat | n < |front| ensures p[n] == q[n] {
      AsBefore(st, front, i, n, Critical);
    }
    OneLonger(p, q, noticed);
  }

  function Counts(run: seq<Input>, k: Kind): (r: seq<nat>)
    ensures |r| == |run| && forall n :: 0 <= n < |run| ==> r[n] == run[n].count(k)
  {
    if run == [] then [] else Counts(run[..|run| - 1], k) + [run[|run| - 1].count(k)]
  }

  function Times(run: seq<Input>): (r: seq<real>)
    ensures |r| == |run| && forall n :: 0 <= n < |run| ==> r[n] == run[n].recorded
  {
    seq(|run|, n requires 0 <= n < |run| => run[n].recorded)
  }

  lemma ColumnsSnoc(front: seq<Input>, i: Input, k: Kind)
    ensures Counts(front + [i], k) == Counts(front, k) + [i.count(k)]
    ensures Times(front + [i]) == Times(front) + [i.recorded]
  {
    assert (front + [i])[..|front|] == front;
  }

  // The alerted counts of a kind are those of exactly the evaluations that have a line for it.
  lemma {:induction false} AlertedAre(st: AlertState, run: seq<Input>, k: Kind) returns (at: seq<nat>)
    ensures Marks(at, AlertFlags(st, run, k)) && Picked(at, Alerted(st, run, k), Counts(run, k))
  {
    if run == [] {
      at := [];
    } else {
      var front, i := run[..|run| - 1], run[|run| - 1];
      assert run == front + [i];
      at := AlertedAre(st, front, k);
      at := AlertedStep(st, front, i, k, Alerted(st, front, k), Fires(Through(st, front), i, k), at);
      assert Alerted(st, front, k) + [] == Alerted(st, front, k);
    }
  }

  lemma AlertedStep(st: AlertState, front: seq<Input>, i: Input, k: Kind, alerted: seq<nat>, fires: bool, at: seq<nat>)
    returns (next: seq<nat>)
    requires Marks(at, AlertFlags(st, front, k)) && Picked(at, alerted, Counts(front, k))
    requires fires == Fires(Through(st, front), i, k)
    ensures Marks(next, AlertFlags(st, front + [i], k))
    ensures Picked(next, if fires then alerted + [i.count(k)] else alerted, Counts(front + [i], k))
  {
    AlertFlagsSnoc(st, front, i, k);
    ColumnsSnoc(front, i, k);
    MarksSnoc(at, AlertFlags(st, front, k), fires);
    PickedSnoc(at, alerted, Counts(front, k), i.count(k), fires);
    next := if fires then at + [|front|] else at;
  }

  // The times of the running notices are those of exactly the evaluations with that line.
  lemma {:induction false} RunningTimesAre(st: AlertState, run: seq<Input>) returns (at: seq<nat>)
    ensures Marks(at, RunningFlags(st, run)) && Picked(at, RunningTimes(st, run), Times(run))
  {
    if run == [] {
      at := [];
    } else {
      var front, i := run[..|run| - 1], run[|run| - 1];
      assert run == front + [i];
      at := RunningTimesAre(st, front);
      at := RunningStep(st, front, i, RunningTimes(st, front), RunningNoticed(Through(st, front), i), at);
      assert RunningTimes(st, front) + [] == RunningTimes(st, front);
    }
  }

  lemma RunningStep(st: AlertState, front: seq<Input>, i: Input, times: seq<real>, noticed: bool, at: seq<nat>)
    returns (next: seq<nat>)
    requires Marks(at, RunningFlags(st, front)) && Picked(at, times, Times(front))
    requires noticed == RunningNoticed(Through(st, front), i)
    ensures Marks(next, RunningFlags(st, front + [i]))
    ensures Picked(next, if noticed then times + [i.recorded] else times, Times(front + [i]))
  {
    RunningFlagsSnoc(st, front, i);
    ColumnsSnoc(front, i, Critical);
    MarksSnoc(at, RunningFlags(st, front), noticed);
    PickedSnoc(at, times, Times(front), i.recorded, noticed);
    next := if noticed then at + [|front|] else at;
  }

  // The finish notices are counted over exactly the evaluations that notice the end.
  lemma {:induction false} FinishNoticesAre(st: AlertState, run: seq<Input>) returns (at: seq<nat>)
    ensures Marks(at, EndFlags(st, run)) && |at| == FinishNotices(st, run)
  {
    if run == [] {
      at := [];
    } else {
      var front, i := run[..|run| - 1], run[|run| - 1];
      assert run == front + [i];
      at := FinishNoticesAre(st, front);
      var noticed := FinishNoticed(Through(st, front), i);
      LastNotices(st, front, i);
      EndFlagsSnoc(st, front, i, noticed);
      MarksSnoc(at, EndFlags(st, front), noticed);
      if noticed {
        at := at + [|front|];
      }
    }
  }
}
