// The alert engine: what one evaluation of a job's fresh statistics fires, and what that
// adds up to over all evaluations of the job.
module AlertEngine {
  import opened Options
  import opened Sequences

  datatype Kind = Critical | Error | Warning | Redirect | Retry | Ignore

  const KINDS: seq<Kind> := [Critical, Error, Warning, Redirect, Retry, Ignore]

  // What JobStats.alert_state remembers between evaluations.
  datatype AlertState = AlertState(counts: map<Kind, nat>, finished: bool, lastRunning: real)

  const NO_ALERTS := AlertState(map[], false, 0.0)

  // The effective settings, with the working-time test already applied to the clock.
  datatype Settings = Settings(threshold: Kind -> int, stop: Kind -> bool, forceStop: Kind -> bool,
                               onFinished: bool, runningInterval: real, workingTime: bool)

  // The notify configuration of the job group that spawned the job, if any.
  datatype Group = NoGroup | Group(enabled: bool)

  // One evaluation's inputs; the clock is read when the interval is tested and again when
  // the alert is recorded.
  datatype Input = Input(settings: Settings, count: Kind -> nat, finished: bool, running: bool, group: Group,
                         tested: real, recorded: real)

  datatype Action = NoAction | Stop | ForceStop

  datatype Line =
    | CountLine(kind: Kind, count: nat, threshold: int)
    | FinishedLine
    | RunningLine
    | ActionLine(action: Action)

  datatype Effects = Effects(lines: seq<Line>, groupReport: bool, cancels: nat, dispatched: bool, state: AlertState)

  predicate Fires(st: AlertState, i: Input, k: Kind) {
    && i.settings.threshold(k) > 0
    && i.count(k) >= i.settings.threshold(k)
    && !(k in st.counts && st.counts[k] == i.count(k))
  }

  function FiredKinds(st: AlertState, i: Input, kinds: seq<Kind>): seq<Kind> {
    if kinds == [] then []
    else
      var front, k := FiredKinds(st, i, kinds[..|kinds| - 1]), kinds[|kinds| - 1];
      if Fires(st, i, k) then front + [k] else front
  }

  function CountLines(i: Input, kinds: seq<Kind>): seq<Line> {
    if kinds == [] then []
    else CountLines(i, kinds[..|kinds| - 1]) +
         [CountLine(kinds[|kinds| - 1], i.count(kinds[|kinds| - 1]), i.settings.threshold(kinds[|kinds| - 1]))]
  }

  // The strongest action among the fired kinds.
  ghost function Join(i: Input, fired: seq<Kind>): Action {
    if exists k <- fired :: i.settings.forceStop(k) then ForceStop
    else if exists k <- fired :: i.settings.stop(k) then Stop
    else NoAction
  }

  predicate FinishNoticed(st: AlertState, i: Input) {
    i.finished && !st.finished && (i.group.Group? || i.settings.onFinished)
  }

  predicate RunningNoticed(st: AlertState, i: Input) {
    i.running && i.settings.runningInterval > 0.0 && i.tested - st.lastRunning >= i.settings.runningInterval
  }

  function StateAfter(st: AlertState, i: Input): AlertState {
    AlertState(map k | k in st.counts || Fires(st, i, k) :: if Fires(st, i, k) then i.count(k) else st.counts[k],
               st.finished || FinishNoticed(st, i),
               if RunningNoticed(st, i) then i.recorded else st.lastRunning)
  }

  // The row's alert_state column, "" or unreadable text reading as nothing remembered.
  class StatsRow {
    var alertState: Option<AlertState>

    constructor (alertState: Option<AlertState>)
      ensures this.alertState == alertState
    {
      this.alertState := alertState;
    }

    function Remembered(): AlertState
      reads this
    {
      if alertState.Some? then alertState.value else NO_ALERTS
    }

    // One threshold.
    method FireKind(st: AlertState, i: Input, ghost kinds: seq<Kind>, kind: Kind, lines: seq<Line>, action: Action,
                    counts: map<Kind, nat>)
      returns (moreLines: seq<Line>, strongest: Action, moreCounts: map<Kind, nat>)
      requires kind !in kinds && SoFar(st, i, kinds, lines, action, counts)
      ensures SoFar(st, i, kinds + [kind], moreLines, strongest, moreCounts)
    {
      moreLines, strongest, moreCounts := lines, action, counts;
      CountsAfterAt(st, i, kinds, kind);
      KindsSnoc(st, i, kinds, kind);
      if i.settings.threshold(kind) > 0 && i.count(kind) >= i.settings.threshold(kind) &&
         !(kind in counts && counts[kind] == i.count(kind))
      {
        FiredSnoc(i, FiredKinds(st, i, kinds), kind);
        moreCounts := counts[kind := i.count(kind)];
        moreLines := lines + [CountLine(kind, i.count(kind), i.settings.threshold(kind))];
        if i.settings.forceStop(kind) {
          strongest := ForceStop;
        } else if i.settings.stop(kind) && action != ForceStop {
          strongest := Stop;
        }
      }
    }

    // The thresholds, kind by kind.
    method FireKinds(st: AlertState, i: Input) returns (lines: seq<Line>, action: Action, counts: map<Kind, nat>)
      ensures lines == CountLines(i, FiredKinds(st, i, KINDS))
      ensures action == Join(i, FiredKinds(st, i, KINDS))
      ensures counts == StateAfter(st, i).counts
    {
      lines, action, counts := [], NoAction, st.counts;
      for n := 0 to |KINDS|
        invariant SoFar(st, i, KINDS[..n], lines, action, counts)
      {
        KindsDiffer(n);
        Snoc(KINDS, n);
        lines, action, counts := FireKind(st, i, KINDS[..n], KINDS[n], lines, action, counts);
      }
      Whole(KINDS);
      AllCounts(st, i);
    }

    method NoticeFinish(st: AlertState, i: Input)
      returns (next: AlertState, noticed: bool, report: bool, lines: seq<Line>)
      ensures noticed <==> FinishNoticed(st, i)
      ensures next == st.(finished := st.finished || noticed)
      ensures report <==> noticed && i.group.Group? && i.group.enabled
      ensures lines == if noticed && i.group.NoGroup? then [FinishedLine] else []
    {
      next, noticed, report, lines := st, false, false, [];
      if i.finished && !st.finished {
        if i.group.Group? {
          next := st.(finished := true);
          noticed := true;
          report := i.group.enabled;
        } else if i.settings.onFinished {
          next := st.(finished := true);
          noticed := true;
          lines := [FinishedLine];
        }
      }
    }

    method NoticeRunning(st: AlertState, i: Input) returns (next: AlertState, noticed: bool, lines: seq<Line>)
      ensures noticed <==> RunningNoticed(st, i)
      ensures next == if noticed then st.(lastRunning := i.recorded) else st
      ensures lines == if noticed then [RunningLine] else []
    {
      next, noticed, lines := st, false, [];
      if i.running && i.settings.runningInterval > 0.0 {
        if i.tested - st.lastRunning >= i.settings.runningInterval {
          next := st.(lastRunning := i.recorded);
          noticed := true;
          lines := [RunningLine];
        }
      }
    }

    // One evaluation. The actions are the strongest the fired kinds ask for, the finish notice
    // and the running notice are recorded with them, and the state is written only if something
    // in it changed.
    method EvaluateAlerts(i: Input) returns (r: Effects)
      modifies this
      ensures r == EffectsOf(old(Remembered()), i)
      ensures Remembered() == StateAfter(old(Remembered()), i)
    {
      var st := Remembered();
      var lines, action, counts := FireKinds(st, i);
      var state := st.(counts := counts);
      var dirty, report := lines != [], false;
      var finished, running, notices;
      state, finished, report, notices := NoticeFinish(state, i);
      lines := lines + notices;
      state, running, notices := NoticeRunning(state, i);
      lines := lines + notices;
      dirty := dirty || finished || running;
      var cancels := 0;
      if action != NoAction && i.running {
        cancels := if action == ForceStop then 2 else 1;
        lines := lines + [ActionLine(action)];
      }
      UnfiredKeepsCounts(st, i);
      if dirty {
        alertState := Some(state);
      }
      r := Effects(lines, report, cancels, lines != [] && i.settings.workingTime, StateAfter(st, i));
    }
  }

  // Everything one evaluation does, as a function of the remembered state and its inputs.
  ghost function EffectsOf(st: AlertState, i: Input): Effects {
    var fired := FiredKinds(st, i, KINDS);
    var action := Join(i, fired);
    var lines := CountLines(i, fired)
                 + (if FinishNoticed(st, i) && i.group.NoGroup? then [FinishedLine] else [])
                 + (if RunningNoticed(st, i) then [RunningLine] else [])
                 + (if action != NoAction && i.running then [ActionLine(action)] else []);
    Effects(lines, FinishNoticed(st, i) && i.group.Group? && i.group.enabled,
            if !i.running || action == NoAction then 0 else if action == ForceStop then 2 else 1,
            lines != [] && i.settings.workingTime, StateAfter(st, i))
  }

  function CountsAfter(st: AlertState, i: Input, kinds: seq<Kind>): map<Kind, nat> {
    if kinds == [] then st.counts
    else
      var front, k := CountsAfter(st, i, kinds[..|kinds| - 1]), kinds[|kinds| - 1];
      if Fires(st, i, k) then front[k := i.count(k)] else front
  }

  lemma {:induction false} CountsAfterAt(st: AlertState, i: Input, kinds: seq<Kind>, k: Kind)
    ensures k in CountsAfter(st, i, kinds) <==> k in st.counts || (k in kinds && Fires(st, i, k))
    ensures k in CountsAfter(st, i, kinds) ==>
              CountsAfter(st, i, kinds)[k] == if k in kinds && Fires(st, i, k) then i.count(k) else st.counts[k]
  {
    if kinds != [] {
      CountsAfterAt(st, i, kinds[..|kinds| - 1], k);
      assert kinds == kinds[..|kinds| - 1] + [kinds[|kinds| - 1]];
    }
  }

  // What the kinds handled so far have produced.
  ghost predicate SoFar(st: AlertState, i: Input, kinds: seq<Kind>, lines: seq<Line>, action: Action,
                        counts: map<Kind, nat>)
  {
    var fired := FiredKinds(st, i, kinds);
    lines == CountLines(i, fired) && action == Join(i, fired) && counts == CountsAfter(st, i, kinds)
  }

  lemma KindsSnoc(st: AlertState, i: Input, kinds: seq<Kind>, k: Kind)
    ensures FiredKinds(st, i, kinds + [k]) == FiredKinds(st, i, kinds) + if Fires(st, i, k) then [k] else []
    ensures CountsAfter(st, i, kinds + [k]) ==
            if Fires(st, i, k) then CountsAfter(st, i, kinds)[k := i.count(k)] else CountsAfter(st, i, kinds)
  {
    assert (kinds + [k])[..|kinds|] == kinds;
  }

  lemma KindsDiffer(n: nat)
    requires n < |KINDS|
    ensures KINDS[n] !in KINDS[..n]
  {
  }

  lemma AllCounts(st: AlertState, i: Input)
    ensures CountsAfter(st, i, KINDS) == StateAfter(st, i).counts
  {
    EveryKind();
    forall k: Kind { CountsAfterAt(st, i, KINDS, k); }
  }

  lemma FiredSnoc(i: Input, fired: seq<Kind>, k: Kind)
    ensures CountLines(i, fired + [k]) == CountLines(i, fired) + [CountLine(k, i.count(k), i.settings.threshold(k))]
    ensures Join(i, fired + [k]) ==
            if i.settings.forceStop(k) then ForceStop
            else if i.settings.stop(k) && Join(i, fired) != ForceStop then Stop
            else Join(i, fired)
  {
    assert (fired + [k])[..|fired|] == fired;
    assert forall x :: x in fired + [k] <==> x in fired || x == k;
  }

  lemma {:induction false} NoneFired(st: AlertState, i: Input, kinds: seq<Kind>)
    ensures FiredKinds(st, i, kinds) == [] ==> forall k <- kinds :: !Fires(st, i, k)
    ensures |CountLines(i, FiredKinds(st, i, kinds))| == |FiredKinds(st, i, kinds)|
  {
    if kinds != [] {
      NoneFired(st, i, kinds[..|kinds| - 1]);
      var front := FiredKinds(st, i, kinds[..|kinds| - 1]);
      assert (front + [kinds[|kinds| - 1]])[..|front|] == front;
    }
  }

  lemma UnfiredKeepsCounts(st: AlertState, i: Input)
    ensures CountLines(i, FiredKinds(st, i, KINDS)) == [] ==> StateAfter(st, i).counts == st.counts
  {
    NoneFired(st, i, KINDS);
    EveryKind();
  }

  lemma EveryKind()
    ensures forall k: Kind :: k in KINDS
  {
    forall k: Kind ensures k in KINDS {
      match k
      case Critical => assert KINDS[0] == k;
      case Error => assert KINDS[1] == k;
      case Warning => assert KINDS[2] == k;
      case Redirect => assert KINDS[3] == k;
      case Retry => assert KINDS[4] == k;
      case Ignore => assert KINDS[5] == k;
    }
  }

  lemma {:induction false} FiredIffFires(st: AlertState, i: Input, kinds: seq<Kind>, k: Kind)
    ensures k in FiredKinds(st, i, kinds) <==> k in kinds && Fires(st, i, k)
  {
    if kinds != [] {
      var front := FiredKinds(st, i, kinds[..|kinds| - 1]);
      FiredIffFires(st, i, kinds[..|kinds| - 1], k);
      assert kinds == kinds[..|kinds| - 1] + [kinds[|kinds| - 1]];
    }
  }

  // Scrapyd is asked to cancel a running job twice if any fired kind says force-stop, else
  // once if any says stop, else not at all.
  lemma CancelsAreTheJoin(st: AlertState, i: Input)
    ensures var n := EffectsOf(st, i).cancels;
            && (n == 2 <==> i.running && exists k :: Fires(st, i, k) && i.settings.forceStop(k))
            && (n == 1 <==> i.running && (forall k :: Fires(st, i, k) ==> !i.settings.forceStop(k))
                            && exists k :: Fires(st, i, k) && i.settings.stop(k))
            && n <= 2
  {
    EveryKind();
    var fired := FiredKinds(st, i, KINDS);
    forall k: Kind ensures k in fired <==> Fires(st, i, k) {
      FiredIffFires(st, i, KINDS, k);
    }
    if k :| Fires(st, i, k) && i.settings.forceStop(k) {
      assert k in fired;
    } else if k :| Fires(st, i, k) && i.settings.stop(k) {
      assert k in fired;
    }
  }

  // ---- all evaluations of one job ----

  function Through(st: AlertState, run: seq<Input>): AlertState {
    if run == [] then st else StateAfter(Through(st, run[..|run| - 1]), run[|run| - 1])
  }

  // The counts for which a kind has raised an alert, in order.
  function Alerted(st: AlertState, run: seq<Input>, k: Kind): seq<nat> {
    if run == [] then []
    else
      var front, i := run[..|run| - 1], run[|run| - 1];
      Alerted(st, front, k) + if Fires(Through(st, front), i, k) then [i.count(k)] else []
  }

  predicate Nondecreasing(run: seq<Input>, k: Kind) {
    forall a, b :: 0 <= a < b < |run| ==> run[a].count(k) <= run[b].count(k)
  }

  predicate StrictlyIncreasing(s: seq<nat>) {
    forall a, b :: 0 <= a < b < |s| ==> s[a] < s[b]
  }

  lemma RememberedAt(st: AlertState, i: Input, k: Kind)
    ensures k in StateAfter(st, i).counts <==> k in st.counts || Fires(st, i, k)
    ensures k in StateAfter(st, i).counts ==>
              StateAfter(st, i).counts[k] == if Fires(st, i, k) then i.count(k) else st.counts[k]
  {
  }

  lemma IncreasingSnoc(s: seq<nat>, n: nat)
    requires StrictlyIncreasing(s) && (s != [] ==> s[|s| - 1] < n)
    ensures StrictlyIncreasing(s + [n])
  {
  }

  // The alerted counts s of a kind, remembered in st, after one more evaluation.
  lemma AlertedStep(s: seq<nat>, st: AlertState, i: Input, k: Kind)
    requires StrictlyIncreasing(s) && (k in st.counts <==> s != [])
    requires s != [] ==> st.counts[k] == s[|s| - 1] && s[|s| - 1] <= i.count(k)
    ensures var r, next := s + (if Fires(st, i, k) then [i.count(k)] else []), StateAfter(st, i);
            && StrictlyIncreasing(r)
            && (k in next.counts <==> r != [])
            && (r != [] ==> next.counts[k] == r[|r| - 1] && r[|r| - 1] <= i.count(k))
  {
    RememberedAt(st, i, k);
    if Fires(st, i, k) {
      IncreasingSnoc(s, i.count(k));
    } else {
      assert s + [] == s;
    }
  }

  lemma {:induction false} AlertedIncreases(run: seq<Input>, k: Kind)
    requires Nondecreasing(run, k)
    ensures var s, st := Alerted(NO_ALERTS, run, k), Through(NO_ALERTS, run);
            && StrictlyIncreasing(s)
            && (k in st.counts <==> s != [])
            && (s != [] ==> st.counts[k] == s[|s| - 1] && s[|s| - 1] <= run[|run| - 1].count(k))
  {
    if run != [] {
      var front, i := run[..|run| - 1], run[|run| - 1];
      AlertedIncreases(front, k);
      assert front != [] ==> front[|front| - 1].count(k) <= i.count(k);
      AlertedStep(Alerted(NO_ALERTS, front, k), Through(NO_ALERTS, front), i, k);
    }
  }

  lemma {:induction false} AlertedAbove(run: seq<Input>, k: Kind, least: nat)
    requires forall n :: 0 <= n < |run| ==> run[n].settings.threshold(k) >= least
    ensures forall n <- Alerted(NO_ALERTS, run, k) :: n >= least
  {
    if run != [] {
      AlertedAbove(run[..|run| - 1], k, least);
    }
  }

  lemma {:induction false} IncreasingFits(s: seq<nat>, low: nat, high: nat)
    requires StrictlyIncreasing(s) && forall n <- s :: low <= n <= high
    ensures |s| <= high + 1 - low || s == []
  {
    if |s| > 1 {
      var n := |s| - 1;
      assert s[n - 1] < s[n] && s[n] in s;
      forall m <- s[..n] ensures low <= m <= s[n] - 1 {
        var j :| 0 <= j < n && s[..n][j] == m;
        assert s[j] == m && s[j] < s[n] && s[j] in s;
      }
      IncreasingFits(s[..n], low, s[n] - 1);
    } else if |s| == 1 {
      assert s[0] in s;
    }
  }

  // As long as a kind's count never shrinks, its alerts carry strictly growing counts, none
  // below the least threshold in force, so there are at most final - threshold + 1 of them.
  lemma AlertsOfOneKind(run: seq<Input>, k: Kind, least: nat)
    requires run != [] && Nondecreasing(run, k)
    requires forall n :: 0 <= n < |run| ==> run[n].settings.threshold(k) >= least
    ensures var s := Alerted(NO_ALERTS, run, k);
            var final := run[|run| - 1].count(k);
            && StrictlyIncreasing(s)
            && (forall n <- s :: least <= n <= final)
            && (s == [] || |s| <= final + 1 - least)
  {
    AlertedIncreases(run, k);
    AlertedAbove(run, k, least);
    var s, final := Alerted(NO_ALERTS, run, k), run[|run| - 1].count(k);
    forall n <- s ensures n <= final {
      var j :| 0 <= j < |s| && s[j] == n;
    }
    IncreasingFits(s, least, final);
  }

  function FinishNotices(st: AlertState, run: seq<Input>): nat {
    if run == [] then 0
    else
      var front := run[..|run| - 1];
      FinishNotices(st, front) + if FinishNoticed(Through(st, front), run[|run| - 1]) then 1 else 0
  }

  // The job is seen to have finished by an evaluation that has somebody to tell.
  predicate Due(i: Input) {
    i.finished && (i.group.Group? || i.settings.onFinished)
  }

  ghost predicate SomeDue(run: seq<Input>) {
    exists i <- run :: Due(i)
  }

  lemma SomeDueSnoc(front: seq<Input>, i: Input)
    ensures SomeDue(front + [i]) <==> SomeDue(front) || Due(i)
  {
    assert forall x :: x in front + [i] <==> x in front || x == i;
  }

  // Over evaluations whose states are all kept, the end of a job is noticed at most once, and
  // exactly once as soon as one of them is due.
  lemma {:induction false} FinishNoticedOnce(st: AlertState, run: seq<Input>)
    ensures FinishNotices(st, run) == if !st.finished && SomeDue(run) then 1 else 0
    ensures Through(st, run).finished <==> st.finished || SomeDue(run)
  {
    if run != [] {
      var front, i := run[..|run| - 1], run[|run| - 1];
      FinishNoticedOnce(st, front);
      SomeDueSnoc(front, i);
      assert run == front + [i];
    }
  }

  // When the running notice was recorded.
  function RunningTimes(st: AlertState, run: seq<Input>): seq<real> {
    if run == [] then []
    else
      var front, i := run[..|run| - 1], run[|run| - 1];
      RunningTimes(st, front) + if RunningNoticed(Through(st, front), i) then [i.recorded] else []
  }

  // The clock does not run backwards.
  predicate Clocked(run: seq<Input>) {
    forall n :: 0 <= n < |run| ==> run[n].tested <= run[n].recorded
  }

  predicate Spaced(ts: seq<real>, gap: real) {
    forall n {:trigger ts[n]} :: 0 < n < |ts| ==> ts[n] - ts[n - 1] >= gap
  }

  lemma {:induction false} RunningSpaced(run: seq<Input>, interval: real)
    requires interval > 0.0 && Clocked(run)
    requires forall n :: 0 <= n < |run| ==> run[n].settings.runningInterval == interval
    ensures var ts := RunningTimes(NO_ALERTS, run);
            && Spaced(ts, interval)
            && (ts != [] ==> Through(NO_ALERTS, run).lastRunning == ts[|ts| - 1])
  {
    if run != [] {
      RunningSpaced(run[..|run| - 1], interval);
    }
  }

  // n gaps laid end to end.
  function Gaps(n: nat, gap: real): real {
    if n == 0 then 0.0 else Gaps(n - 1, gap) + gap
  }

  lemma {:induction false} GapsIsProduct(n: nat, gap: real)
    ensures Gaps(n, gap) == n as real * gap
  {
    if n > 0 {
      GapsIsProduct(n - 1, gap);
      OneMoreGap((n - 1) as real, gap);
      assert n as real == (n - 1) as real + 1.0;
    }
  }

  lemma {:induction false} SpacedSpan(ts: seq<real>, gap: real)
    requires Spaced(ts, gap) && ts != []
    ensures Gaps(|ts| - 1, gap) <= ts[|ts| - 1] - ts[0]
  {
    if |ts| > 1 {
      SpacedSpan(ts[..|ts| - 1], gap);
      assert ts[|ts| - 1] - ts[|ts| - 2] >= gap;
    }
  }

  lemma NoticesFit(n: nat, interval: real, span: real)
    requires interval > 0.0 && Gaps(n, interval) <= span
    ensures n <= (span / interval).Floor
  {
    GapsIsProduct(n, interval);
    DivideOut(n as real, interval, span);
    CountBelowFloor(n, span / interval);
  }

  // Running notices are at least the interval apart, so a job that is observed for a span of
  // time gets at most floor(span / interval) + 1 of them.
  lemma RunningNotices(run: seq<Input>, interval: real, span: real)
    requires interval > 0.0 && Clocked(run)
    requires forall n :: 0 <= n < |run| ==> run[n].settings.runningInterval == interval
    requires var ts := RunningTimes(NO_ALERTS, run); ts != [] ==> ts[|ts| - 1] - ts[0] <= span
    requires span >= 0.0
    ensures Spaced(RunningTimes(NO_ALERTS, run), interval)
    ensures |RunningTimes(NO_ALERTS, run)| <= (span / interval).Floor + 1
  {
    var ts := RunningTimes(NO_ALERTS, run);
    RunningSpaced(run, interval);
    if ts == [] {
      NoticesFit(0, interval, span);
    } else {
      SpacedSpan(ts, interval);
      NoticesFit(|ts| - 1, interval, span);
    }
  }

  lemma OneMoreGap(n: real, gap: real)
    ensures (n + 1.0) * gap == n * gap + gap
  {
  }

  lemma PositiveFactor(x: real, gap: real)
    requires gap > 0.0 && x * gap >= 0.0
    ensures x >= 0.0
  {
  }

  lemma DivideOut(n: real, gap: real, span: real)
    requires gap > 0.0 && n * gap <= span
    ensures n <= span / gap
  {
    var q := span / gap;
    assert q * gap == span;
    assert (q - n) * gap == q * gap - n * gap;
    PositiveFactor(q - n, gap);
  }

  lemma CountBelowFloor(n: nat, q: real)
    requires n as real <= q
    ensures n <= q.Floor
  {
  }

  // ---- collector cycles that are rolled back ----

  // The evaluations of the job in one cycle; the states they write are kept only if the cycle
  // is committed, but what they have sent has been sent.
  datatype Cycle = Cycle(run: seq<Input>, committed: bool)

  function AfterCycles(cycles: seq<Cycle>): AlertState {
    if cycles == [] then NO_ALERTS
    else
      var st, c := AfterCycles(cycles[..|cycles| - 1]), cycles[|cycles| - 1];
      if c.committed then Through(st, c.run) else st
  }

  // The evaluations of the committed cycles, in order.
  function CommittedRun(cycles: seq<Cycle>): seq<Input> {
    if cycles == [] then []
    else
      var front, c := CommittedRun(cycles[..|cycles| - 1]), cycles[|cycles| - 1];
      if c.committed then front + c.run else front
  }

  lemma {:induction false} ThroughAppend(st: AlertState, a: seq<Input>, b: seq<Input>)
    ensures Through(st, a + b) == Through(Through(st, a), b)
  {
    if b == [] {
      assert a + b == a;
    } else {
      var front, i := b[..|b| - 1], b[|b| - 1];
      ThroughAppend(st, a, front);
      assert (a + b)[..|a + b| - 1] == a + front && (a + b)[|a + b| - 1] == i;
    }
  }

  // What a cycle finds is what the evaluations of the committed cycles before it have left, so
  // it does what it would do at the end of a run of those alone.
  lemma {:induction false} CyclesSeeCommittedRun(cycles: seq<Cycle>)
    ensures AfterCycles(cycles) == Through(NO_ALERTS, CommittedRun(cycles))
  {
    if cycles != [] {
      var front, c := cycles[..|cycles| - 1], cycles[|cycles| - 1];
      CyclesSeeCommittedRun(front);
      ThroughAppend(NO_ALERTS, CommittedRun(front), c.run);
    }
  }

  // How often a cycle notices the end of the job.
  function NoticesIn(cycles: seq<Cycle>, n: nat): nat
    requires n < |cycles|
  {
    FinishNotices(AfterCycles(cycles[..n]), cycles[n].run)
  }

  ghost predicate DueIn(c: Cycle) { SomeDue(c.run) }

  lemma {:induction false} FinishedIff(cycles: seq<Cycle>)
    ensures AfterCycles(cycles).finished <==> exists c <- cycles :: DueIn(c) && c.committed
  {
    if cycles != [] {
      var front, c := cycles[..|cycles| - 1], cycles[|cycles| - 1];
      FinishedIff(front);
      FinishNoticedOnce(AfterCycles(front), c.run);
      assert forall x :: x in cycles <==> x in front || x == c;
    }
  }

  // The end of the job is noticed in a cycle, once, exactly when it is due there and no
  // committed cycle before it was: a rolled-back cycle sends its notice and forgets it.
  lemma FinishNoticedIff(cycles: seq<Cycle>, n: nat)
    requires n < |cycles|
    ensures NoticesIn(cycles, n) ==
            if DueIn(cycles[n]) && forall m :: 0 <= m < n ==> !(DueIn(cycles[m]) && cycles[m].committed) then 1 else 0
  {
    var front := cycles[..n];
    FinishedIff(front);
    FinishNoticedOnce(AfterCycles(front), cycles[n].run);
    assert forall m :: 0 <= m < n ==> front[m] == cycles[m] && cycles[m] in front;
  }
}
