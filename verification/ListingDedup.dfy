// De-duplication of one parsed /jobs page before it is stored.
module ListingDedup {
  import opened JobModel
  import opened Options
  import opened Texts

  datatype Level = Info | Warning

  // ---- specification ----

  predicate Unfinished(j: Listed) { j.finish == "" }

  // How many leading jobs are unfinished: the forward scan stops at the first finish time.
  function Head(jobs: seq<Listed>): (n: nat)
    ensures n <= |jobs|
    ensures forall i :: 0 <= i < n ==> Unfinished(jobs[i])
    ensures n < |jobs| ==> !Unfinished(jobs[n])
  {
    if jobs == [] || !Unfinished(jobs[0]) then 0 else 1 + Head(jobs[1..])
  }

  // Where the trailing run of finished jobs begins: the backward scan stops there.
  function Tail(jobs: seq<Listed>): (n: nat)
    ensures n <= |jobs|
    ensures forall i :: n <= i < |jobs| ==> !Unfinished(jobs[i])
    ensures n > 0 ==> Unfinished(jobs[n - 1])
  {
    if jobs == [] || Unfinished(jobs[|jobs| - 1]) then |jobs| else Tail(jobs[..|jobs| - 1])
  }

  // Scrapyd lists pending and running jobs before finished ones.
  predicate WellShaped(jobs: seq<Listed>) {
    Head(jobs) == Tail(jobs)
  }

  // The last record carrying a key.
  function Last(jobs: seq<Listed>, k: Key): (r: Option<Listed>)
    ensures r.Some? <==> k in KeysOf(jobs)
    ensures r.Some? ==> r.value in jobs && r.value.key == k
  {
    if jobs == [] then None
    else if jobs[|jobs| - 1].key == k then Some(jobs[|jobs| - 1])
    else
      assert forall j :: j in jobs <==> j in jobs[..|jobs| - 1] || j == jobs[|jobs| - 1];
      Last(jobs[..|jobs| - 1], k)
  }

  // The record that represents a key: its last unfinished one if the forward scan
  // meets any, otherwise the last one the backward scan meets.
  function Choice(jobs: seq<Listed>, k: Key): Option<Listed> {
    OrElse(Last(jobs[..Head(jobs)], k), Last(jobs[Tail(jobs)..], k))
  }

  function OrElse<T>(a: Option<T>, b: Option<T>): Option<T> {
    if a.Some? then a else b
  }

  // A list of records with distinct keys is an insertion-ordered dictionary.
  function Position(s: seq<Listed>, k: Key): (p: nat)
    ensures p <= |s|
    ensures p < |s| ==> s[p].key == k
    ensures forall i :: 0 <= i < p ==> s[i].key != k
  {
    if s == [] || s[0].key == k then 0 else 1 + Position(s[1..], k)
  }

  function Find(s: seq<Listed>, k: Key): Option<Listed> {
    if Position(s, k) < |s| then Some(s[Position(s, k)]) else None
  }

  function UniqueKeyString(j: Listed, node: string): string {
    j.key.project + "/" + j.key.spider + "/" + j.key.job + "/" + j.start + "/" + j.finish + "/" + node
  }

  // ---- the scans ----

  // The process-wide record of duplicates that have already been announced.
  class DuplicateMemo {
    var strings: set<string>

    constructor ()
      ensures strings == {}
    {
      strings := {};
    }

    method Announce(j: Listed, node: string, level: Level) returns (flashes: seq<(Level, string)>)
      modifies this
      ensures strings == old(strings) + {UniqueKeyString(j, node)}
      ensures |flashes| == |strings| - |old(strings)|
      ensures forall f :: f in flashes ==> f == (level, UniqueKeyString(j, node))
    {
      var uks := UniqueKeyString(j, node);
      flashes := [];
      if uks !in strings {
        strings := strings + {uks};
        flashes := [(level, uks)];
      } else {
        assert strings == strings + {uks};
      }
    }
  }

  // The record of the job's key is popped and the job put at the end.
  function Moved(seen: seq<Listed>, job: Listed): seq<Listed> {
    var p := Position(seen, job.key);
    (if p < |seen| then seen[..p] + seen[p + 1..] else seen) + [job]
  }

  // seen holds the last record of every key among jobs.
  ghost predicate HoldsLast(seen: seq<Listed>, jobs: seq<Listed>) {
    DistinctKeys(seen) && forall k :: Find(seen, k) == Last(jobs, k)
  }

  // A flash names a listed job; it is a warning if that job runs.
  predicate IsFlash(f: (Level, string), j: Listed, node: string) {
    f.1 == UniqueKeyString(j, node) && f.0 == if j.start != "" && j.finish == "" then Warning else Info
  }

  // The flashes so far: one for every new string of the memo, each naming a listed job.
  ghost predicate Reported(before: set<string>, after: set<string>, flashes: seq<(Level, string)>, jobs: seq<Listed>,
                           node: string)
  {
    && before <= after && |flashes| == |after| - |before|
    && forall f <- flashes :: exists j <- jobs :: IsFlash(f, j, node)
  }

  lemma MoreReported(before: set<string>, now: set<string>, after: set<string>, flashes: seq<(Level, string)>,
                     more: seq<(Level, string)>, jobs: seq<Listed>, node: string)
    requires Reported(before, now, flashes, jobs, node) && Reported(now, after, more, jobs, node)
    ensures Reported(before, after, flashes + more, jobs, node)
  {
  }

  // Announces a listed job behind the flashes so far.
  method Report(memo: DuplicateMemo, ghost before: set<string>, flashes: seq<(Level, string)>, job: Listed,
                level: Level, ghost jobs: seq<Listed>, node: string)
    returns (all: seq<(Level, string)>)
    requires job in jobs && level == if job.start != "" && job.finish == "" then Warning else Info
    requires Reported(before, memo.strings, flashes, jobs, node)
    modifies memo
    ensures Reported(before, memo.strings, all, jobs, node)
  {
    ghost var now := memo.strings;
    var more := memo.Announce(job, node, level);
    MoreReported(before, now, memo.strings, flashes, more, jobs, node);
    all := flashes + more;
  }

  // The next job takes the place of an earlier record of its key, which is announced.
  method Displace(memo: DuplicateMemo, ghost before: set<string>, seen: seq<Listed>, flashes: seq<(Level, string)>,
                  jobs: seq<Listed>, i: nat, node: string)
    returns (next: seq<Listed>, all: seq<(Level, string)>)
    requires i < |jobs| && i <= Head(jobs) && HoldsLast(seen, jobs[..i])
    requires Reported(before, memo.strings, flashes, jobs, node)
    modifies memo
    ensures HoldsLast(next, jobs[..i + 1])
    ensures Reported(before, memo.strings, all, jobs, node)
  {
    SeenStep(seen, jobs, i);
    ghost var moved := Moved(seen, jobs[i]);
    next, all := seen, flashes;
    var p := Position(seen, jobs[i].key);
    if p < |seen| {
      SeenIsUnfinished(seen, jobs, i, p);
      all := Report(memo, before, flashes, seen[p], if seen[p].start != "" then Warning else Info, jobs, node);
      next := seen[..p] + seen[p + 1..];
    }
    next := next + [jobs[i]];
    assert next == moved;
  }

  // The forward scan: a later unfinished record takes the place of an earlier one.
  method ScanUnfinished(memo: DuplicateMemo, jobs: seq<Listed>, node: string)
    returns (seen: seq<Listed>, flashes: seq<(Level, string)>)
    modifies memo
    ensures HoldsLast(seen, jobs[..Head(jobs)])
    ensures Reported(old(memo.strings), memo.strings, flashes, jobs, node)
  {
    seen, flashes := [], [];
    var i := 0;
    while i < |jobs| && Unfinished(jobs[i])
      invariant i <= Head(jobs)
      invariant HoldsLast(seen, jobs[..i])
      invariant Reported(old(memo.strings), memo.strings, flashes, jobs, node)
    {
      HeadPast(jobs, i);
      seen, flashes := Displace(memo, old(memo.strings), seen, flashes, jobs, i, node);
      i := i + 1;
    }
  }

  // front, and for keys it lacks the last record among jobs.
  ghost predicate HoldsRest(seen: seq<Listed>, front: seq<Listed>, jobs: seq<Listed>) {
    DistinctKeys(seen) && forall k :: Find(seen, k) == OrElse(Find(front, k), Last(jobs, k))
  }

  function Joined(seen: seq<Listed>, job: Listed): seq<Listed> {
    if Position(seen, job.key) < |seen| then seen else seen + [job]
  }

  // The next job is announced if there is a record of its key, and otherwise put at the end.
  method KeepFirst(memo: DuplicateMemo, ghost before: set<string>, seen: seq<Listed>, flashes: seq<(Level, string)>,
                   ghost front: seq<Listed>, jobs: seq<Listed>, i: nat, node: string)
    returns (next: seq<Listed>, all: seq<(Level, string)>)
    requires i < |jobs| && !Unfinished(jobs[i]) && HoldsRest(seen, front, jobs[i + 1..])
    requires Reported(before, memo.strings, flashes, jobs, node)
    modifies memo
    ensures HoldsRest(next, front, jobs[i..])
    ensures Reported(before, memo.strings, all, jobs, node)
  {
    RestStep(seen, front, jobs, i);
    next, all := seen, flashes;
    if Position(seen, jobs[i].key) < |seen| {
      all := Report(memo, before, flashes, jobs[i], Info, jobs, node);
    } else {
      next := seen + [jobs[i]];
    }
  }

  // One record per key is kept, the one Choice names, and no displaced record is announced
  // twice, neither in this call nor in a later one.
  method HandleUniqueConstraint(memo: DuplicateMemo, jobs: seq<Listed>, node: string)
    returns (seen: seq<Listed>, flashes: seq<(Level, string)>)
    modifies memo
    ensures DistinctKeys(seen)
    ensures forall k :: Find(seen, k) == Choice(jobs, k)
    ensures Reported(old(memo.strings), memo.strings, flashes, jobs, node)
  {
    seen, flashes := ScanUnfinished(memo, jobs, node);
    ghost var front := seen;
    var i := |jobs|;
    NoRest(front, jobs);
    while 0 < i && !Unfinished(jobs[i - 1])
      invariant Tail(jobs) <= i <= |jobs|
      invariant HoldsRest(seen, front, jobs[i..])
      invariant Reported(old(memo.strings), memo.strings, flashes, jobs, node)
    {
      TailPast(jobs, i);
      i := i - 1;
      seen, flashes := KeepFirst(memo, old(memo.strings), seen, flashes, front, jobs, i, node);
    }
    RestIsChoice(seen, front, jobs);
  }

  // ---- lemmas for the scans ----

  lemma SeenIsUnfinished(seen: seq<Listed>, jobs: seq<Listed>, i: nat, p: nat)
    requires i <= Head(jobs) && HoldsLast(seen, jobs[..i]) && p < |seen|
    ensures seen[p] in jobs && seen[p].finish == ""
  {
    FindIs(seen, seen[p].key);
    assert Last(jobs[..i], seen[p].key) == Some(seen[p]);
    var j :| 0 <= j < i && jobs[..i][j] == seen[p];
    assert jobs[j] == seen[p];
  }

  lemma NoRest(front: seq<Listed>, jobs: seq<Listed>)
    requires DistinctKeys(front)
    ensures HoldsRest(front, front, jobs[|jobs|..])
  {
    assert jobs[|jobs|..] == [];
  }

  lemma RestIsChoice(seen: seq<Listed>, front: seq<Listed>, jobs: seq<Listed>)
    requires HoldsLast(front, jobs[..Head(jobs)]) && HoldsRest(seen, front, jobs[Tail(jobs)..])
    ensures DistinctKeys(seen) && forall k :: Find(seen, k) == Choice(jobs, k)
  {
  }

  lemma HeadPast(jobs: seq<Listed>, i: nat)
    requires i <= Head(jobs) && i < |jobs| && Unfinished(jobs[i])
    ensures i < Head(jobs)
  {
  }

  lemma TailPast(jobs: seq<Listed>, i: nat)
    requires Tail(jobs) <= i <= |jobs| && 0 < i && !Unfinished(jobs[i - 1])
    ensures Tail(jobs) < i
  {
  }

  lemma MovedFind(seen: seq<Listed>, job: Listed, k: Key)
    requires DistinctKeys(seen)
    ensures DistinctKeys(Moved(seen, job))
    ensures Find(Moved(seen, job), k) == if k == job.key then Some(job) else Find(seen, k)
  {
    var p := Position(seen, job.key);
    if p < |seen| {
      FindWithout(seen, p);
      FindSnoc(seen[..p] + seen[p + 1..], job);
    } else {
      FindSnoc(seen, job);
    }
  }

  lemma SeenStep(seen: seq<Listed>, jobs: seq<Listed>, i: nat)
    requires i < |jobs| && HoldsLast(seen, jobs[..i])
    ensures HoldsLast(Moved(seen, jobs[i]), jobs[..i + 1])
  {
    LastSnoc(jobs, i);
    MovedFind(seen, jobs[i], jobs[i].key);
    forall k ensures Find(Moved(seen, jobs[i]), k) == Last(jobs[..i + 1], k) {
      MovedFind(seen, jobs[i], k);
    }
  }

  lemma RestStep(seen: seq<Listed>, front: seq<Listed>, jobs: seq<Listed>, i: nat)
    requires i < |jobs| && HoldsRest(seen, front, jobs[i + 1..])
    ensures HoldsRest(Joined(seen, jobs[i]), front, jobs[i..])
  {
    var job := jobs[i];
    LastCons(jobs, i);
    if Position(seen, job.key) < |seen| {
      assert Find(seen, job.key).Some?;
    } else {
      assert Find(seen, job.key).None?;
      FindSnoc(seen, job);
      forall k ensures Find(seen + [job], k) == OrElse(Find(front, k), Last(jobs[i..], k)) {
        assert Find(seen, k) == OrElse(Find(front, k), Last(jobs[i + 1..], k));
      }
    }
  }

  lemma LastSnoc(jobs: seq<Listed>, i: nat)
    requires i < |jobs|
    ensures forall k :: Last(jobs[..i + 1], k) == if k == jobs[i].key then Some(jobs[i]) else Last(jobs[..i], k)
  {
    var s := jobs[..i + 1];
    assert s[..|s| - 1] == jobs[..i] && s[|s| - 1] == jobs[i];
    forall k ensures Last(s, k) == if k == jobs[i].key then Some(jobs[i]) else Last(jobs[..i], k) {
    }
  }

  lemma {:induction false} LastCons(jobs: seq<Listed>, i: nat)
    requires i < |jobs|
    ensures forall k :: Last(jobs[i + 1..], k).Some? ==> Last(jobs[i..], k) == Last(jobs[i + 1..], k)
    ensures forall k :: Last(jobs[i + 1..], k).None? ==>
                          Last(jobs[i..], k) == (if k == jobs[i].key then Some(jobs[i]) else None)
    decreases |jobs|
  {
    if i + 1 < |jobs| {
      LastCons(jobs[..|jobs| - 1], i);
      assert jobs[..|jobs| - 1][i..] == jobs[i..][..|jobs[i..]| - 1];
      assert jobs[..|jobs| - 1][i + 1..] == jobs[i + 1..][..|jobs[i + 1..]| - 1];
    }
  }

  lemma KeysOfRest(jobs: seq<Listed>, y: nat, k: Key)
    requires y < |jobs| - 1 && jobs[|jobs| - 1].key != k && k !in KeysOf(jobs[..|jobs| - 1][y + 1..])
    ensures k !in KeysOf(jobs[y + 1..])
  {
    assert jobs[y + 1..] == jobs[..|jobs| - 1][y + 1..] + [jobs[|jobs| - 1]];
  }

  lemma KeyIsBefore(jobs: seq<Listed>, k: Key)
    requires jobs != [] && k in KeysOf(jobs) && jobs[|jobs| - 1].key != k
    ensures k in KeysOf(jobs[..|jobs| - 1])
  {
    assert forall j :: j in jobs <==> j in jobs[..|jobs| - 1] || j == jobs[|jobs| - 1];
  }

  lemma {:induction false} LastIndex(jobs: seq<Listed>, k: Key) returns (y: nat)
    requires k in KeysOf(jobs)
    ensures y < |jobs| && Last(jobs, k) == Some(jobs[y]) && k !in KeysOf(jobs[y + 1..])
  {
    var n := |jobs| - 1;
    if jobs[n].key == k {
      y := n;
    } else {
      KeyIsBefore(jobs, k);
      y := LastIndex(jobs[..n], k);
      KeysOfRest(jobs, y, k);
    }
  }

  lemma FindSnoc(s: seq<Listed>, j: Listed)
    requires DistinctKeys(s) && Find(s, j.key).None?
    ensures DistinctKeys(s + [j])
    ensures forall k :: Find(s + [j], k) == if k == j.key then Some(j) else Find(s, k)
  {
    forall k ensures Find(s + [j], k) == if k == j.key then Some(j) else Find(s, k) {
      FindIs(s, k);
      FindIs(s + [j], k);
      var p := Position(s, k);
      assert p < |s| ==> (s + [j])[p] == s[p];
      assert (s + [j])[|s|] == j;
    }
  }

  lemma FindWithout(s: seq<Listed>, p: nat)
    requires DistinctKeys(s) && p < |s|
    ensures DistinctKeys(s[..p] + s[p + 1..])
    ensures forall k :: Find(s[..p] + s[p + 1..], k) == if k == s[p].key then None else Find(s, k)
  {
    var t := s[..p] + s[p + 1..];
    forall k ensures Find(t, k) == if k == s[p].key then None else Find(s, k) {
      var q := Position(s, k);
      if q < |s| && q != p {
        assert t[if q < p then q else q - 1] == s[q];
      }
      var r := Position(t, k);
      assert r < |t| ==> t[r] == s[if r < p then r else r + 1];
    }
  }

  lemma FindIs(s: seq<Listed>, k: Key)
    requires DistinctKeys(s)
    ensures forall i :: 0 <= i < |s| && s[i].key == k ==> Find(s, k) == Some(s[i])
  {
  }

  // On scrapyd's own layout nothing is dropped: every listed key keeps a record, namely its
  // last unfinished one, or its last finished one when it has no unfinished one.
  lemma ChoiceCoversListing(jobs: seq<Listed>, k: Key)
    requires WellShaped(jobs)
    ensures Choice(jobs, k).Some? <==> k in KeysOf(jobs)
    ensures Choice(jobs, k).Some? ==> Choice(jobs, k).value in jobs && Choice(jobs, k).value.key == k
  {
    assert jobs == jobs[..Head(jobs)] + jobs[Tail(jobs)..];
  }

  // Which record is chosen when the first n jobs are unfinished and the others finished: the
  // last unfinished one of the key, or else the last finished one.
  lemma ChoiceIs(jobs: seq<Listed>, n: nat, i: nat)
    requires n <= |jobs| && i < |jobs|
    requires (forall j :: 0 <= j < n ==> jobs[j].finish == "") && forall j :: n <= j < |jobs| ==> jobs[j].finish != ""
    requires if i < n then forall j :: i < j < n ==> jobs[j].key != jobs[i].key
             else forall j :: (0 <= j < n || i < j < |jobs|) ==> jobs[j].key != jobs[i].key
    ensures Choice(jobs, jobs[i].key) == Some(jobs[i])
  {
    HeadAt(jobs, n);
    TailAt(jobs, n);
    if i < n {
      LastAt(jobs[..n], i);
    } else {
      NoneLast(jobs[..n], jobs[i].key);
      LastAt(jobs[n..], i - n);
    }
  }

  lemma {:induction false} HeadAt(jobs: seq<Listed>, n: nat)
    requires n <= |jobs| && (forall j :: 0 <= j < n ==> Unfinished(jobs[j]))
    requires n < |jobs| ==> !Unfinished(jobs[n])
    ensures Head(jobs) == n
  {
    if n > 0 {
      HeadAt(jobs[1..], n - 1);
    }
  }

  lemma {:induction false} TailAt(jobs: seq<Listed>, n: nat)
    requires n <= |jobs| && (forall j :: n <= j < |jobs| ==> !Unfinished(jobs[j]))
    requires n > 0 ==> Unfinished(jobs[n - 1])
    ensures Tail(jobs) == n
  {
    if n < |jobs| {
      TailAt(jobs[..|jobs| - 1], n);
    }
  }

  lemma NoneLast(jobs: seq<Listed>, k: Key)
    requires forall j :: 0 <= j < |jobs| ==> jobs[j].key != k
    ensures Last(jobs, k) == None
  {
  }

  lemma {:induction false} LastAt(jobs: seq<Listed>, i: nat)
    requires i < |jobs| && forall j :: i < j < |jobs| ==> jobs[j].key != jobs[i].key
    ensures Last(jobs, jobs[i].key) == Some(jobs[i])
    decreases |jobs|
  {
    if i < |jobs| - 1 {
      LastAt(jobs[..|jobs| - 1], i);
    }
  }

  lemma SlashSplits(a: string, b: string, x: string, y: string)
    requires '/' !in a && '/' !in b && a + "/" + x == b + "/" + y
    ensures a == b && x == y
  {
    SplitAtFirst(a, x, '/');
    SplitAtFirst(b, y, '/');
    assert a + ['/'] + x == b + ['/'] + y;
    assert ([a] + Split(x, '/'))[0] == ([b] + Split(y, '/'))[0];
    assert x == (a + "/" + x)[|a| + 1..] && y == (b + "/" + y)[|b| + 1..];
  }

  predicate NoSlash(j: Listed) {
    '/' !in j.key.project && '/' !in j.key.spider && '/' !in j.key.job && '/' !in j.start && '/' !in j.finish
  }

  lemma StringFromLeft(j: Listed, node: string)
    ensures UniqueKeyString(j, node) ==
            j.key.project + "/" + (j.key.spider + "/" + (j.key.job + "/" + (j.start + "/" + (j.finish + "/" + node))))
  {
  }

  // Only the same execution on the same node is announced as the same.
  lemma UniqueKeyStringIsUnique(i: Listed, j: Listed, m: string, n: string)
    requires NoSlash(i) && NoSlash(j)
    ensures UniqueKeyString(i, m) == UniqueKeyString(j, n) <==>
            i.key == j.key && i.start == j.start && i.finish == j.finish && m == n
  {
    StringFromLeft(i, m);
    StringFromLeft(j, n);
    if UniqueKeyString(i, m) == UniqueKeyString(j, n) {
      var i1, j1 := i.finish + "/" + m, j.finish + "/" + n;
      var i2, j2 := i.start + "/" + i1, j.start + "/" + j1;
      var i3, j3 := i.key.job + "/" + i2, j.key.job + "/" + j2;
      SlashSplits(i.key.project, j.key.project, i.key.spider + "/" + i3, j.key.spider + "/" + j3);
      SlashSplits(i.key.spider, j.key.spider, i3, j3);
      SlashSplits(i.key.job, j.key.job, i2, j2);
      SlashSplits(i.start, j.start, i1, j1);
      SlashSplits(i.finish, j.finish, m, n);
    }
  }
}
