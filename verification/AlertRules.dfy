// Alert rules: glob patterns, their specificity, and the overlay of matching rules onto the
// global alert settings.
module AlertRules {
  import opened AlertEngine
  import opened Options
  import opened Sequences

  // ---- glob patterns ----

  // Which characters a bracket expression admits; the text between the brackets decides.
  type ClassOf = (string, char) -> bool

  // Where the bracket expression that opens the pattern closes: a '!' and then a ']' right
  // after the opening are part of it.
  function ClassEnd(p: string): (end: Option<nat>)
    requires p != "" && p[0] == '['
    ensures end.Some? ==> 0 < end.value < |p|
  {
    var i := if 1 < |p| && p[1] == '!' then 2 else 1;
    var j := if i < |p| && p[i] == ']' then i + 1 else i;
    FindClose(p, j)
  }

  function FindClose(p: string, j: nat): (end: Option<nat>)
    requires 0 < j
    ensures end.Some? ==> j <= end.value < |p| && p[end.value] == ']'
    decreases |p| - j
  {
    if j >= |p| then None else if p[j] == ']' then Some(j) else FindClose(p, j + 1)
  }

  // fnmatch.fnmatchcase(s, p)
  predicate Glob(p: string, s: string, classOf: ClassOf)
    decreases |p| + |s|
  {
    if p == "" then s == ""
    else if p[0] == '*' then Glob(p[1..], s, classOf) || (s != "" && Glob(p, s[1..], classOf))
    else if p[0] == '?' then s != "" && Glob(p[1..], s[1..], classOf)
    else if p[0] == '[' && ClassEnd(p).Some? then
      s != "" && classOf(p[1..ClassEnd(p).value], s[0]) && Glob(p[ClassEnd(p).value + 1..], s[1..], classOf)
    else s != "" && s[0] == p[0] && Glob(p[1..], s[1..], classOf)
  }

  predicate IsSpecial(c: char) { c == '*' || c == '?' || c == '[' }

  function Score(p: string): nat {
    if p == "*" then 0 else if exists c <- p :: IsSpecial(c) then 1 else 2
  }

  lemma {:induction false} PlainPatternIsExact(p: string, s: string, classOf: ClassOf)
    requires forall c <- p :: !IsSpecial(c)
    ensures Glob(p, s, classOf) <==> p == s
  {
    if p != "" {
      assert p[0] in p;
      if s != "" {
        PlainPatternIsExact(p[1..], s[1..], classOf);
        assert p == [p[0]] + p[1..] && s == [s[0]] + s[1..];
      }
    }
  }

  lemma {:induction false} StarMatchesAll(s: string, classOf: ClassOf)
    ensures Glob("*", s, classOf)
  {
    if s != "" {
      StarMatchesAll(s[1..], classOf);
    } else {
      assert Glob("*"[1..], s, classOf);
    }
  }

  // Plain text in front of a pattern stands for itself, ...
  lemma {:induction false} GlobText(u: string, p: string, s: string, classOf: ClassOf)
    requires forall c <- u :: c !in {'*', '?', '['}
    ensures Glob(u + p, s, classOf) <==> u <= s && Glob(p, s[|u|..], classOf)
  {
    if u == "" {
      assert u + p == p && s[0..] == s;
    } else {
      assert u[0] in u && (u + p)[0] == u[0] && (u + p)[1..] == u[1..] + p;
      assert forall c <- u[1..] :: c in u;
      if s != "" {
        GlobText(u[1..], p, s[1..], classOf);
        assert u <= s <==> u[0] == s[0] && u[1..] <= s[1..] by {
          assert u == [u[0]] + u[1..] && s == [s[0]] + s[1..];
        }
        assert |u| <= |s| ==> s[1..][|u| - 1..] == s[|u|..];
      }
    }
  }

  // ... a star for any text, ...
  lemma {:induction false} GlobStar(p: string, s: string, classOf: ClassOf)
    ensures Glob("*" + p, s, classOf) <==> exists i :: 0 <= i <= |s| && Glob(p, s[i..], classOf)
    decreases |s|
  {
    var q := "*" + p;
    assert q[0] == '*' && q[1..] == p && s[0..] == s;
    if s != "" {
      GlobStar(p, s[1..], classOf);
      forall i | 0 <= i < |s| ensures s[1..][i..] == s[i + 1..] {
      }
      if i :| 0 < i <= |s| && Glob(p, s[i..], classOf) {
        assert s[1..][i - 1..] == s[i..];
      }
    }
  }

  // ... and a question mark or a bracket expression for one character.
  lemma GlobAny(p: string, s: string, classOf: ClassOf)
    ensures Glob("?" + p, s, classOf) <==> s != "" && Glob(p, s[1..], classOf)
  {
    assert ("?" + p)[1..] == p;
  }

  lemma GlobClass(body: string, p: string, s: string, classOf: ClassOf, q: string)
    requires q == "[" + body + "]" + p && body != "" && body[0] != '!' && ']' !in body
    ensures Glob(q, s, classOf) <==> s != "" && classOf(body, s[0]) && Glob(p, s[1..], classOf)
  {
    ClassCloses(body, p, q);
    assert q[1..|body| + 1] == body && q[|body| + 2..] == p;
  }

  lemma ClassCloses(body: string, p: string, q: string)
    requires q == "[" + body + "]" + p && body != "" && body[0] != '!' && ']' !in body
    ensures q[0] == '[' && ClassEnd(q) == Some(|body| + 1)
  {
    assert q[1] == body[0] && body[0] in body;
    forall j | 1 <= j <= |body| ensures q[j] != ']' {
      assert q[j] == body[j - 1] && body[j - 1] in body;
    }
    ClosesAt(q, 1, |body| + 1);
  }

  lemma {:induction false} ClosesAt(p: string, j: nat, end: nat)
    requires 0 < j <= end < |p| && p[end] == ']' && forall i :: j <= i < end ==> p[i] != ']'
    ensures FindClose(p, j) == Some(end)
    decreases end - j
  {
    if j < end {
      ClosesAt(p, j + 1, end);
    }
  }

  // Of two patterns that match the same name, the one with the higher score matches nothing
  // that the other does not.
  lemma HigherScoreIsNarrower(p: string, q: string, name: string, s: string, classOf: ClassOf)
    requires Glob(p, name, classOf) && Glob(q, name, classOf) && Score(p) > Score(q)
    requires Glob(p, s, classOf)
    ensures Glob(q, s, classOf)
  {
    if q == "*" {
      StarMatchesAll(s, classOf);
    } else {
      PlainPatternIsExact(p, name, classOf);
      PlainPatternIsExact(p, s, classOf);
    }
  }

  // ---- rules ----

  datatype KindSpec = KindSpec(threshold: Option<int>, action: string)

  datatype Rule = Rule(id: int, projectPattern: string, spiderPattern: string, thresholds: map<Kind, KindSpec>,
                       onFinished: Option<bool>, runningInterval: Option<int>, channels: Option<seq<string>>)

  datatype SettingKey =
    | Threshold(kind: Kind)
    | TriggerStop(kind: Kind)
    | TriggerForceStop(kind: Kind)
    | OnJobFinished
    | OnJobRunningInterval
    | EnableChannel(channel: string)
    | OtherKey(name: string)

  datatype SettingValue = Flag(b: bool) | Number(n: int) | OtherValue(text: string)

  type AlertSettings = map<SettingKey, SettingValue>

  const CHANNEL_NAMES: seq<string> := ["slack", "telegram", "email"]

  predicate Matches(r: Rule, project: string, spider: string, classOf: ClassOf) {
    Glob(r.projectPattern, project, classOf) && Glob(r.spiderPattern, spider, classOf)
  }

  // Project outweighs spider, and the newer rule wins between equals.
  predicate AtMostAsSpecific(a: Rule, b: Rule) {
    var (p, q) := (Score(a.projectPattern), Score(b.projectPattern));
    var (s, t) := (Score(a.spiderPattern), Score(b.spiderPattern));
    p < q || (p == q && (s < t || (s == t && a.id <= b.id)))
  }

  function Matching(rules: seq<Rule>, project: string, spider: string, classOf: ClassOf): (r: seq<Rule>)
    ensures forall x :: x in r <==> x in rules && Matches(x, project, spider, classOf)
  {
    if rules == [] then []
    else
      var front, last := Matching(rules[..|rules| - 1], project, spider, classOf), rules[|rules| - 1];
      assert forall x :: x in rules <==> x in rules[..|rules| - 1] || x == last;
      if Matches(last, project, spider, classOf) then front + [last] else front
  }

  predicate Ordered(rs: seq<Rule>) {
    forall i, j :: 0 <= i < j < |rs| ==> AtMostAsSpecific(rs[i], rs[j])
  }

  lemma OrderedSnoc(s: seq<Rule>, last: Rule)
    requires Ordered(s) && forall x <- s :: AtMostAsSpecific(x, last)
    ensures Ordered(s + [last])
  {
    var t := s + [last];
    forall i, j | 0 <= i < j < |t| ensures AtMostAsSpecific(t[i], t[j]) {
      assert t[i] in s;
    }
  }

  // sorted(), which is stable: r goes behind everything that is at most as specific.
  function Insert(rs: seq<Rule>, r: Rule): (s: seq<Rule>)
    requires Ordered(rs)
    ensures Ordered(s) && forall x :: x in s <==> x in rs || x == r
  {
    if rs == [] || AtMostAsSpecific(rs[|rs| - 1], r) then rs + [r]
    else
      var s := Insert(rs[..|rs| - 1], r);
      assert forall x :: x in rs <==> x in rs[..|rs| - 1] || x == rs[|rs| - 1];
      assert AtMostAsSpecific(r, rs[|rs| - 1]);
      OrderedSnoc(s, rs[|rs| - 1]);
      s + [rs[|rs| - 1]]
  }

  function Sorted(rs: seq<Rule>): (s: seq<Rule>)
    ensures Ordered(s) && forall x :: x in s <==> x in rs
  {
    if rs == [] then []
    else
      assert forall x :: x in rs <==> x in rs[..|rs| - 1] || x == rs[|rs| - 1];
      Insert(Sorted(rs[..|rs| - 1]), rs[|rs| - 1])
  }

  function MatchingRules(rules: seq<Rule>, project: string, spider: string, classOf: ClassOf): (s: seq<Rule>)
    ensures Ordered(s) && forall x :: x in s <==> x in rules && Matches(x, project, spider, classOf)
  {
    Sorted(Matching(rules, project, spider, classOf))
  }

  // ---- the overlay ----

  // What a rule says about one setting.
  function Says(r: Rule, key: SettingKey): Option<SettingValue> {
    match key
    case Threshold(k) => if Sets(r, k) then Some(Number(r.thresholds[k].threshold.value)) else None
    case TriggerStop(k) => if Sets(r, k) then Some(Flag(r.thresholds[k].action == "stop")) else None
    case TriggerForceStop(k) => if Sets(r, k) then Some(Flag(r.thresholds[k].action == "forcestop")) else None
    case OnJobFinished => if r.onFinished.Some? then Some(Flag(r.onFinished.value)) else None
    case OnJobRunningInterval => if r.runningInterval.Some? then Some(Number(r.runningInterval.value)) else None
    case EnableChannel(c) =>
      if r.channels.Some? && c in CHANNEL_NAMES then Some(Flag(c in r.channels.value)) else None
    case OtherKey(_) => None
  }

  predicate Sets(r: Rule, k: Kind) {
    k in r.thresholds && r.thresholds[k].threshold.Some?
  }

  function Get(s: AlertSettings, key: SettingKey): Option<SettingValue> {
    if key in s then Some(s[key]) else None
  }

  // One setting after the rules have been applied in order.
  function Overlaid(base: Option<SettingValue>, rs: seq<Rule>, key: SettingKey): Option<SettingValue> {
    if rs == [] then base
    else
      var last := Says(rs[|rs| - 1], key);
      if last.Some? then last else Overlaid(base, rs[..|rs| - 1], key)
  }

  predicate IsKindKey(key: SettingKey) { key.Threshold? || key.TriggerStop? || key.TriggerForceStop? }

  function KindWritten(eff: AlertSettings, r: Rule, kind: Kind): AlertSettings {
    if Sets(r, kind) then
      eff[Threshold(kind) := Number(r.thresholds[kind].threshold.value)]
         [TriggerStop(kind) := Flag(r.thresholds[kind].action == "stop")]
         [TriggerForceStop(kind) := Flag(r.thresholds[kind].action == "forcestop")]
    else eff
  }

  lemma KindWrittenAt(eff: AlertSettings, r: Rule, kind: Kind, key: SettingKey)
    ensures Get(KindWritten(eff, r, kind), key) ==
              if IsKindKey(key) && key.kind == kind && Says(r, key).Some? then Says(r, key) else Get(eff, key)
  {
  }

  // Writes the thresholds and actions a rule sets.
  method OverlayKinds(eff: AlertSettings, r: Rule) returns (out: AlertSettings)
    ensures forall key :: Get(out, key) ==
              if IsKindKey(key) && Says(r, key).Some? then Says(r, key)
              else Get(eff, key)
  {
    out := eff;
    for n := 0 to |KINDS|
      invariant forall key :: Get(out, key) ==
                  if IsKindKey(key) && key.kind in KINDS[..n] && Says(r, key).Some?
                  then Says(r, key) else Get(eff, key)
    {
      var kind := KINDS[n];
      Snoc(KINDS, n);
      ghost var before := out;
      forall key ensures Get(KindWritten(before, r, kind), key) ==
          if IsKindKey(key) && key.kind == kind && Says(r, key).Some? then Says(r, key) else Get(before, key)
      {
        KindWrittenAt(before, r, kind, key);
      }
      if kind in r.thresholds && r.thresholds[kind].threshold.Some? {
        out := out[Threshold(kind) := Number(r.thresholds[kind].threshold.value)];
        out := out[TriggerStop(kind) := Flag(r.thresholds[kind].action == "stop")];
        out := out[TriggerForceStop(kind) := Flag(r.thresholds[kind].action == "forcestop")];
      }
    }
    Whole(KINDS);
    EveryKind();
  }

  method OverlayChannels(eff: AlertSettings, channels: seq<string>) returns (out: AlertSettings)
    ensures forall key :: Get(out, key) ==
              if key.EnableChannel? && key.channel in CHANNEL_NAMES then Some(Flag(key.channel in channels))
              else Get(eff, key)
  {
    out := eff;
    for n := 0 to |CHANNEL_NAMES|
      invariant forall key :: Get(out, key) ==
                  if key.EnableChannel? && key.channel in CHANNEL_NAMES[..n] then Some(Flag(key.channel in channels))
                  else Get(eff, key)
    {
      Snoc(CHANNEL_NAMES, n);
      out := out[EnableChannel(CHANNEL_NAMES[n]) := Flag(CHANNEL_NAMES[n] in channels)];
    }
    Whole(CHANNEL_NAMES);
  }

  // The four steps a rule takes, each seen at one key.
  lemma StepsAt(r: Rule, key: SettingKey, v0: Option<SettingValue>, v1: Option<SettingValue>, v2: Option<SettingValue>,
                v3: Option<SettingValue>, v4: Option<SettingValue>)
    requires v1 == if IsKindKey(key) && Says(r, key).Some? then Says(r, key) else v0
    requires v2 == if key == OnJobFinished && r.onFinished.Some? then Some(Flag(r.onFinished.value)) else v1
    requires v3 == if key == OnJobRunningInterval && r.runningInterval.Some?
                   then Some(Number(r.runningInterval.value)) else v2
    requires v4 == if key.EnableChannel? && r.channels.Some? && key.channel in CHANNEL_NAMES
                   then Some(Flag(key.channel in r.channels.value)) else v3
    ensures v4 == if Says(r, key).Some? then Says(r, key) else v0
  {
  }

  // Writes what one rule sets.
  method OverlayRule(eff: AlertSettings, rule: Rule) returns (out: AlertSettings)
    ensures forall key :: Get(out, key) == if Says(rule, key).Some? then Says(rule, key) else Get(eff, key)
  {
    out := OverlayKinds(eff, rule);
    ghost var kinds := out;
    if rule.onFinished.Some? {
      out := out[OnJobFinished := Flag(rule.onFinished.value)];
    }
    ghost var finished := out;
    if rule.runningInterval.Some? {
      out := out[OnJobRunningInterval := Number(rule.runningInterval.value)];
    }
    ghost var running := out;
    if rule.channels.Some? {
      out := OverlayChannels(out, rule.channels.value);
    }
    forall key ensures Get(out, key) == if Says(rule, key).Some? then Says(rule, key) else Get(eff, key) {
      StepsAt(rule, key, Get(eff, key), Get(kinds, key), Get(finished, key), Get(running, key), Get(out, key));
    }
  }

  method EffectiveSettings(settings: AlertSettings, rules: seq<Rule>, project: string, spider: string, classOf: ClassOf)
    returns (eff: AlertSettings)
    ensures Effective(eff, settings, rules, project, spider, classOf)
  {
    var matched := MatchingRules(rules, project, spider, classOf);
    eff := settings;
    if matched == [] {
      return;
    }
    for i := 0 to |matched|
      invariant forall key :: Get(eff, key) == Overlaid(Get(settings, key), matched[..i], key)
    {
      Snoc(matched, i);
      eff := OverlayRule(eff, matched[i]);
    }
    Whole(matched);
  }

  // ---- what the overlay means ----

  predicate Decides(rs: seq<Rule>, r: Rule, key: SettingKey) {
    && r in rs && Says(r, key).Some?
    && forall x <- rs :: Says(x, key).Some? ==> AtMostAsSpecific(x, r)
  }

  lemma LastDecides(rs: seq<Rule>, key: SettingKey)
    requires Ordered(rs) && rs != [] && Says(rs[|rs| - 1], key).Some?
    ensures Decides(rs, rs[|rs| - 1], key)
  {
    forall x <- rs ensures AtMostAsSpecific(x, rs[|rs| - 1]) {
      var i :| 0 <= i < |rs| && rs[i] == x;
      assert i < |rs| - 1 ==> AtMostAsSpecific(rs[i], rs[|rs| - 1]);
    }
  }

  lemma FrontDecides(rs: seq<Rule>, r: Rule, key: SettingKey)
    requires rs != [] && Says(rs[|rs| - 1], key).None? && Decides(rs[..|rs| - 1], r, key)
    ensures Decides(rs, r, key)
  {
    assert forall x :: x in rs <==> x in rs[..|rs| - 1] || x == rs[|rs| - 1];
  }

  lemma {:induction false} LastSpeakerWins(base: Option<SettingValue>, rs: seq<Rule>, key: SettingKey)
    requires Ordered(rs)
    ensures (forall x <- rs :: Says(x, key).None?) ==> Overlaid(base, rs, key) == base
    ensures (exists x <- rs :: Says(x, key).Some?) ==>
              exists r :: Decides(rs, r, key) && Overlaid(base, rs, key) == Says(r, key)
  {
    if rs != [] {
      var front, last := rs[..|rs| - 1], rs[|rs| - 1];
      assert forall x :: x in rs <==> x in front || x == last;
      LastSpeakerWins(base, front, key);
      if Says(last, key).Some? {
        LastDecides(rs, key);
      } else if exists x <- rs :: Says(x, key).Some? {
        assert exists x <- front :: Says(x, key).Some?;
        var r :| Decides(front, r, key) && Overlaid(base, front, key) == Says(r, key);
        FrontDecides(rs, r, key);
      }
    }
  }

  predicate DistinctIds(rules: seq<Rule>) {
    forall x <- rules, y <- rules :: x.id == y.id ==> x == y
  }

  // Each setting comes from the most specific matching rule that sets it, or else from the
  // global settings.
  lemma MostSpecificDecides(settings: AlertSettings, rules: seq<Rule>, project: string, spider: string,
                            classOf: ClassOf, r: Rule, key: SettingKey)
    requires DistinctIds(rules)
    requires r in rules && Matches(r, project, spider, classOf) && Says(r, key).Some?
    requires forall x <- rules :: Matches(x, project, spider, classOf) && Says(x, key).Some? ==> AtMostAsSpecific(x, r)
    ensures Overlaid(Get(settings, key), MatchingRules(rules, project, spider, classOf), key) == Says(r, key)
  {
    var matched := MatchingRules(rules, project, spider, classOf);
    LastSpeakerWins(Get(settings, key), matched, key);
    assert r in matched;
    var w :| Decides(matched, w, key) && Overlaid(Get(settings, key), matched, key) == Says(w, key);
    assert AtMostAsSpecific(w, r) && AtMostAsSpecific(r, w);
  }

  lemma UnsetStaysGlobal(settings: AlertSettings, rules: seq<Rule>, project: string, spider: string, classOf: ClassOf,
                         key: SettingKey)
    requires forall x <- rules :: Matches(x, project, spider, classOf) ==> Says(x, key).None?
    ensures Overlaid(Get(settings, key), MatchingRules(rules, project, spider, classOf), key) == Get(settings, key)
  {
    LastSpeakerWins(Get(settings, key), MatchingRules(rules, project, spider, classOf), key);
  }

  // A kind's threshold and its two actions always come from the same rule, and so do the
  // three channels.
  lemma GroupsStayTogether(r: Rule, k: Kind, c: string, d: string)
    ensures Says(r, Threshold(k)).Some? <==> Says(r, TriggerStop(k)).Some?
    ensures Says(r, Threshold(k)).Some? <==> Says(r, TriggerForceStop(k)).Some?
    ensures c in CHANNEL_NAMES && d in CHANNEL_NAMES ==>
              (Says(r, EnableChannel(c)).Some? <==> Says(r, EnableChannel(d)).Some?)
    ensures !(Says(r, TriggerStop(k)) == Some(Flag(true)) && Says(r, TriggerForceStop(k)) == Some(Flag(true)))
  {
  }

  lemma SameRulesSameOverlay(base: Option<SettingValue>, m: seq<Rule>, n: seq<Rule>, key: SettingKey)
    requires Ordered(m) && Ordered(n) && DistinctIds(m) && forall x :: x in m <==> x in n
    ensures Overlaid(base, m, key) == Overlaid(base, n, key)
  {
    LastSpeakerWins(base, m, key);
    LastSpeakerWins(base, n, key);
    if x :| x in m && Says(x, key).Some? {
      var v :| Decides(m, v, key) && Overlaid(base, m, key) == Says(v, key);
      assert x in n;
      var w :| Decides(n, w, key) && Overlaid(base, n, key) == Says(w, key);
      OneDecider(m, n, v, w, key);
    }
  }

  lemma OneDecider(m: seq<Rule>, n: seq<Rule>, v: Rule, w: Rule, key: SettingKey)
    requires DistinctIds(m) && (forall x :: x in m <==> x in n) && Decides(m, v, key) && Decides(n, w, key)
    ensures v == w
  {
    assert AtMostAsSpecific(v, w) && AtMostAsSpecific(w, v);
    assert v.id == w.id;
  }

  // The order in which the rules are listed does not matter.
  lemma OrderOfRulesIsIrrelevant(settings: AlertSettings, a: seq<Rule>, b: seq<Rule>, project: string, spider: string,
                                 classOf: ClassOf, key: SettingKey)
    requires multiset(a) == multiset(b) && DistinctIds(a)
    ensures Overlaid(Get(settings, key), MatchingRules(a, project, spider, classOf), key) ==
            Overlaid(Get(settings, key), MatchingRules(b, project, spider, classOf), key)
  {
    var m, n := MatchingRules(a, project, spider, classOf), MatchingRules(b, project, spider, classOf);
    forall x ensures x in m <==> x in n {
      assert x in a <==> x in multiset(a);
      assert x in b <==> x in multiset(b);
    }
    SameRulesSameOverlay(Get(settings, key), m, n, key);
  }

  // ---- which rule decides, in terms of its patterns ----

  predicate Plain(p: string) { '*' !in p && '?' !in p && '[' !in p }

  // Plain text is narrower than a pattern with wildcards, and that narrower than the lone star.
  predicate Narrower(p: string, q: string) {
    (Plain(p) && !Plain(q)) || (p != "*" && q == "*")
  }

  predicate SameClass(p: string, q: string) {
    (Plain(p) <==> Plain(q)) && (p == "*" <==> q == "*")
  }

  // The project pattern counts first, then the spider pattern, then the id.
  predicate Beats(r: Rule, x: Rule) {
    || Narrower(r.projectPattern, x.projectPattern)
    || (SameClass(r.projectPattern, x.projectPattern) &&
        (|| Narrower(r.spiderPattern, x.spiderPattern)
         || (SameClass(r.spiderPattern, x.spiderPattern) && r.id > x.id)))
  }

  predicate Applies(r: Rule, project: string, spider: string, classOf: ClassOf) {
    Glob(r.projectPattern, project, classOf) && Glob(r.spiderPattern, spider, classOf)
  }

  lemma ClassesScore(p: string, q: string)
    ensures Narrower(p, q) <==> Score(p) > Score(q)
    ensures SameClass(p, q) <==> Score(p) == Score(q)
  {
    PlainScore(p);
    PlainScore(q);
  }

  lemma PlainScore(p: string)
    ensures p == "*" <==> Score(p) == 0
    ensures Plain(p) <==> Score(p) == 2
  {
    assert p == "*" ==> p[0] in p;
    assert !Plain(p) <==> exists c <- p :: IsSpecial(c);
  }

  lemma BeatsIsAbove(r: Rule, x: Rule)
    requires Beats(r, x)
    ensures AtMostAsSpecific(x, r) && !AtMostAsSpecific(r, x)
  {
    ClassesScore(r.projectPattern, x.projectPattern);
    ClassesScore(r.spiderPattern, x.spiderPattern);
  }

  lemma BeaterDecides(base: Option<SettingValue>, rules: seq<Rule>, project: string, spider: string, classOf: ClassOf,
                      r: Rule, key: SettingKey)
    requires r in rules && Applies(r, project, spider, classOf) && Says(r, key).Some?
    requires forall x <- rules ::
               x != r && Applies(x, project, spider, classOf) && Says(x, key).Some? ==> Beats(r, x)
    ensures Overlaid(base, MatchingRules(rules, project, spider, classOf), key) == Says(r, key)
  {
    var matched := MatchingRules(rules, project, spider, classOf);
    LastSpeakerWins(base, matched, key);
    assert r in matched;
    var w :| Decides(matched, w, key) && Overlaid(base, matched, key) == Says(w, key);
    if w != r {
      BeatsIsAbove(r, w);
    }
  }

  // What a job's settings are, given rules: the result of EffectiveSettings.
  ghost predicate Effective(eff: AlertSettings, settings: AlertSettings, rules: seq<Rule>, project: string,
                            spider: string, classOf: ClassOf)
  {
    forall key :: Get(eff, key) == Overlaid(Get(settings, key), MatchingRules(rules, project, spider, classOf), key)
  }

  predicate HasThreshold(r: Rule, k: Kind) { k in r.thresholds && r.thresholds[k].threshold.Some? }

  // Of the rules that apply to a job and give a threshold for a kind, the one that beats the
  // others gives the threshold and both actions. Without such a rule all three are the global ones.
  lemma ThresholdIsDecided(eff: AlertSettings, settings: AlertSettings, rules: seq<Rule>, project: string,
                           spider: string, classOf: ClassOf, r: Rule, k: Kind)
    requires Effective(eff, settings, rules, project, spider, classOf)
    ensures && r in rules && Applies(r, project, spider, classOf) && HasThreshold(r, k)
            && (forall x <- rules ::
                  x != r && Applies(x, project, spider, classOf) && HasThreshold(x, k) ==> Beats(r, x))
            ==>
            && Get(eff, Threshold(k)) == Some(Number(r.thresholds[k].threshold.value))
            && Get(eff, TriggerStop(k)) == Some(Flag(r.thresholds[k].action == "stop"))
            && Get(eff, TriggerForceStop(k)) == Some(Flag(r.thresholds[k].action == "forcestop"))
    ensures (forall x <- rules :: Applies(x, project, spider, classOf) ==> !HasThreshold(x, k)) ==>
            && Get(eff, Threshold(k)) == Get(settings, Threshold(k))
            && Get(eff, TriggerStop(k)) == Get(settings, TriggerStop(k))
            && Get(eff, TriggerForceStop(k)) == Get(settings, TriggerForceStop(k))
  {
    KindKeyIsDecided(settings, rules, project, spider, classOf, r, k, Threshold(k));
    KindKeyIsDecided(settings, rules, project, spider, classOf, r, k, TriggerStop(k));
    KindKeyIsDecided(settings, rules, project, spider, classOf, r, k, TriggerForceStop(k));
  }

  lemma KindKeyIsDecided(settings: AlertSettings, rules: seq<Rule>, project: string, spider: string, classOf: ClassOf,
                         r: Rule, k: Kind, key: SettingKey)
    requires IsKindKey(key) && key.kind == k
    ensures && r in rules && Applies(r, project, spider, classOf) && HasThreshold(r, k)
            && (forall x <- rules ::
                  x != r && Applies(x, project, spider, classOf) && HasThreshold(x, k) ==> Beats(r, x))
            ==> Overlaid(Get(settings, key), MatchingRules(rules, project, spider, classOf), key) == Says(r, key)
    ensures (forall x <- rules :: Applies(x, project, spider, classOf) ==> !HasThreshold(x, k)) ==>
            Overlaid(Get(settings, key), MatchingRules(rules, project, spider, classOf), key) == Get(settings, key)
  {
    assert forall x: Rule :: Says(x, key).Some? <==> HasThreshold(x, k);
    KeyIsDecided(settings, rules, project, spider, classOf, r, key);
  }

  lemma KeyIsDecided(settings: AlertSettings, rules: seq<Rule>, project: string, spider: string, classOf: ClassOf,
                     r: Rule, key: SettingKey)
    ensures && r in rules && Applies(r, project, spider, classOf) && Says(r, key).Some?
            && (forall x <- rules ::
                  x != r && Applies(x, project, spider, classOf) && Says(x, key).Some? ==> Beats(r, x))
            ==> Overlaid(Get(settings, key), MatchingRules(rules, project, spider, classOf), key) == Says(r, key)
    ensures (forall x <- rules :: Applies(x, project, spider, classOf) ==> Says(x, key).None?) ==>
            Overlaid(Get(settings, key), MatchingRules(rules, project, spider, classOf), key) == Get(settings, key)
  {
    if && r in rules && Applies(r, project, spider, classOf) && Says(r, key).Some?
       && (forall x <- rules ::
             x != r && Applies(x, project, spider, classOf) && Says(x, key).Some? ==> Beats(r, x))
    {
      BeaterDecides(Get(settings, key), rules, project, spider, classOf, r, key);
    }
    if forall x <- rules :: Applies(x, project, spider, classOf) ==> Says(x, key).None? {
      UnsetStaysGlobal(settings, rules, project, spider, classOf, key);
    }
  }

  // The same for the finish notice and the interval of the running notice, ...
  lemma NoticesAreDecided(eff: AlertSettings, settings: AlertSettings, rules: seq<Rule>, project: string,
                          spider: string, classOf: ClassOf, r: Rule)
    requires Effective(eff, settings, rules, project, spider, classOf)
    ensures && r in rules && Applies(r, project, spider, classOf) && r.onFinished.Some?
            && (forall x <- rules ::
                  x != r && Applies(x, project, spider, classOf) && x.onFinished.Some? ==> Beats(r, x))
            ==> Get(eff, OnJobFinished) == Some(Flag(r.onFinished.value))
    ensures (forall x <- rules :: Applies(x, project, spider, classOf) ==> x.onFinished.None?) ==>
            Get(eff, OnJobFinished) == Get(settings, OnJobFinished)
    ensures && r in rules && Applies(r, project, spider, classOf) && r.runningInterval.Some?
            && (forall x <- rules ::
                  x != r && Applies(x, project, spider, classOf) && x.runningInterval.Some? ==> Beats(r, x))
            ==> Get(eff, OnJobRunningInterval) == Some(Number(r.runningInterval.value))
    ensures (forall x <- rules :: Applies(x, project, spider, classOf) ==> x.runningInterval.None?) ==>
            Get(eff, OnJobRunningInterval) == Get(settings, OnJobRunningInterval)
  {
    assert forall x: Rule :: Says(x, OnJobFinished).Some? <==> x.onFinished.Some?;
    assert forall x: Rule :: Says(x, OnJobRunningInterval).Some? <==> x.runningInterval.Some?;
    KeyIsDecided(settings, rules, project, spider, classOf, r, OnJobFinished);
    KeyIsDecided(settings, rules, project, spider, classOf, r, OnJobRunningInterval);
  }

  lemma ChannelSays(r: Rule, c: string)
    requires c == "slack" || c == "telegram" || c == "email"
    ensures Says(r, EnableChannel(c)) ==
            if r.channels.Some? then Some(Flag(c in r.channels.value)) else None
  {
    assert CHANNEL_NAMES[0] == "slack" && CHANNEL_NAMES[1] == "telegram" && CHANNEL_NAMES[2] == "email";
  }

  // ... for the three channels, ...
  lemma ChannelsAreDecided(eff: AlertSettings, settings: AlertSettings, rules: seq<Rule>, project: string,
                           spider: string, classOf: ClassOf, r: Rule, c: string)
    requires Effective(eff, settings, rules, project, spider, classOf)
    requires c == "slack" || c == "telegram" || c == "email"
    ensures && r in rules && Applies(r, project, spider, classOf) && r.channels.Some?
            && (forall x <- rules ::
                  x != r && Applies(x, project, spider, classOf) && x.channels.Some? ==> Beats(r, x))
            ==> Get(eff, EnableChannel(c)) == Some(Flag(c in r.channels.value))
    ensures (forall x <- rules :: Applies(x, project, spider, classOf) ==> x.channels.None?) ==>
            Get(eff, EnableChannel(c)) == Get(settings, EnableChannel(c))
  {
    forall x | x in rules || x == r
      ensures Says(x, EnableChannel(c)) == if x.channels.Some? then Some(Flag(c in x.channels.value)) else None
    {
      ChannelSays(x, c);
    }
    KeyIsDecided(settings, rules, project, spider, classOf, r, EnableChannel(c));
  }

  // ... and no rule touches any other setting.
  lemma OthersStay(eff: AlertSettings, settings: AlertSettings, rules: seq<Rule>, project: string, spider: string,
                   classOf: ClassOf, name: string)
    requires Effective(eff, settings, rules, project, spider, classOf)
    ensures Get(eff, OtherKey(name)) == Get(settings, OtherKey(name))
  {
    UnsetStaysGlobal(settings, rules, project, spider, classOf, OtherKey(name));
  }
}
