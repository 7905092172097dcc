// Editing a timer task: the form is posted, checked and stored as a task row, and the row
// is turned back into a form.
module TaskForm {
  import opened CurlPreview
  import opened Options
  import opened Sequences
  import opened SortedTexts
  import opened Texts

  // ---- what travels ----

  datatype Schedule = Schedule(year: string, month: string, day: string, week: string, dayOfWeek: string,
                               hour: string, minute: string, second: string)

  datatype Mode = Now | Cron

  datatype Action = AddFire | Add | AddPause

  // The values of the form; run holds the part the curl preview also shows.
  datatype Values = Values(run: Form, nodes: seq<int>, mode: Mode, name: string, action: Action, taskId: nat,
                           schedule: Schedule)

  // The fields posted to the check page. args are the entries of a JSON object.
  datatype Request = Request(project: string, version: string, spider: string, jobid: string,
                             settings: seq<Pair>, args: seq<Pair>, trigger: bool, action: Action, name: string,
                             taskId: nat, schedule: Schedule)

  // What is posted to the run page beside the file name: the ticked nodes.
  datatype Ticks = Ticks(amount: nat, on: set<int>)

  // A value of the data dictionary.
  datatype Value = Text(text: string) | Texts(texts: seq<string>) | Timer(timer: TimerData)

  type Data = map<string, Value>

  datatype TimerData = TimerData(action: Action, taskId: nat, name: Option<string>, schedule: Schedule,
                                 extras: Extras)

  // The scheduler options this form has no field for.
  datatype Extras = Extras(startDate: Option<string>, endDate: Option<string>, timezone: Option<string>,
                           jitter: nat, misfireGraceTime: Option<nat>, coalesce: bool, maxInstances: nat)

  const DEFAULT_EXTRAS := Extras(None, None, None, 0, Some(600), true, 1)

  datatype Task = Task(project: string, version: string, spider: string, jobid: string, arguments: Data,
                       nodes: seq<int>, name: Option<string>, schedule: Schedule, extras: Extras,
                       groupId: Option<nat>)

  const TASK_DATA := "__task_data"

  // ---- the valid form ----

  predicate Upper(c: char) { 'A' <= c <= 'Z' }

  predicate Letter(c: char) { Upper(c) || 'a' <= c <= 'z' || c == '_' }

  // ^[A-Z][A-Z0-9_]{0,30}$
  predicate SettingKey(k: string) {
    1 <= |k| <= 31 && Upper(k[0]) && forall c <- k :: Upper(c) || IsDigit(c) || c == '_'
  }

  // ^[A-Za-z_][A-Za-z0-9_]*$
  predicate ArgKey(k: string) {
    k != "" && Letter(k[0]) && forall c <- k :: Letter(c) || IsDigit(c)
  }

  // Python's $ also matches before a final newline.
  predicate PyMatches(k: string, whole: string -> bool) {
    whole(k) || (k != "" && k[|k| - 1] == '\n' && whole(k[..|k| - 1]))
  }

  const RESERVED := {"project", "_version", "spider", "jobid", "setting", "filename", "checked_amount"}

  predicate UniqueKeys(pairs: seq<Pair>) {
    forall i, j :: 0 <= i < j < |pairs| ==> pairs[i].key != pairs[j].key
  }

  // The schema of the form; okSetting is the type check of the settings it knows.
  predicate SchemaValid(okSetting: Pair -> bool, v: Values) {
    && v.run.project != "" && v.run.spider != "" && v.nodes != []
    && (forall p <- v.run.settings :: SettingKey(p.key) && p.value != "" && okSetting(p))
    && UniqueKeys(v.run.settings)
    && (forall p <- v.run.args :: ArgKey(p.key) && p.value != "" && p.key !in RESERVED)
    && UniqueKeys(v.run.args)
  }

  // ---- posting the form ----

  function Kept(pairs: seq<Pair>): seq<Pair> {
    if pairs == [] then []
    else
      var front, last := Kept(pairs[..|pairs| - 1]), pairs[|pairs| - 1];
      if last.key != "" && last.value != "" then front + [last] else front
  }

  // Object.fromEntries: a repeated key keeps its place and takes the last value.
  function FromEntries(pairs: seq<Pair>): seq<Pair> {
    if pairs == [] then []
    else PutEntry(FromEntries(pairs[..|pairs| - 1]), pairs[|pairs| - 1])
  }

  function PutEntry(entries: seq<Pair>, p: Pair): seq<Pair> {
    if entries == [] then [p]
    else if entries[0].key == p.key then [p] + entries[1..]
    else [entries[0]] + PutEntry(entries[1..], p)
  }

  const NO_SCHEDULE := Schedule("", "", "", "", "", "", "", "")

  function Posted(v: Values): Request {
    var cron := v.mode.Cron?;
    Request(v.run.project, Or(v.run.version, LATEST), v.run.spider, v.run.jobid, Kept(v.run.settings),
            FromEntries(Kept(v.run.args)), cron, if cron then v.action else AddFire, if cron then v.name else "",
            if cron then v.taskId else 0, if cron then v.schedule else NO_SCHEDULE)
  }

  function TicksOf(v: Values): Ticks { Ticks(|v.nodes|, set n <- v.nodes) }

  // ---- checking it ----

  function KeyVal(p: Pair): string { p.key + "=" + p.value }

  // The settings taken over, as KEY=VAL.
  function SettingTexts(settings: seq<Pair>): seq<string> {
    if settings == [] then []
    else
      var front, p := SettingTexts(settings[..|settings| - 1]), settings[|settings| - 1];
      if PyMatches(p.key, SettingKey) && p.value != "" then front + [KeyVal(p)] else front
  }

  predicate LooseKey(k: string) { PyMatches(k, ArgKey) && k !in RESERVED }

  function Loose(args: seq<Pair>): (m: Data)
    ensures forall k :: k in m ==> LooseKey(k) && m[k].Text?
  {
    if args == [] then map[]
    else
      var front, p := Loose(args[..|args| - 1]), args[|args| - 1];
      if LooseKey(p.key) then front[p.key := Text(p.value)] else front
  }

  function DefaultSchedule(s: Schedule): Schedule {
    Schedule(Or(s.year, "*"), Or(s.month, "*"), Or(s.day, "*"), Or(s.week, "*"), Or(s.dayOfWeek, "*"),
             Or(s.hour, "*"), Or(s.minute, "0"), Or(s.second, "0"))
  }

  function TimerOf(req: Request): TimerData {
    TimerData(req.action, req.taskId, OrNone(req.name), DefaultSchedule(req.schedule), DEFAULT_EXTRAS)
  }

  function FixedData(req: Request, now: string): Data {
    map["project" := Text(req.project), "spider" := Text(req.spider),
        "jobid" := Text(SanitizeJobid(Or(req.jobid, now)))]
    + (if req.version == LATEST then map[] else map["_version" := Text(req.version)])
  }

  function Checked(req: Request, now: string): Data {
    var data := (FixedData(req, now) + Loose(req.args))["setting" := Texts(Sorted(SettingTexts(req.settings)))];
    if req.trigger then data[TASK_DATA := Timer(TimerOf(req))] else data
  }

  method CollectSettings(settings: seq<Pair>) returns (setting: seq<string>)
    ensures setting == SettingTexts(settings)
  {
    setting := [];
    for i := 0 to |settings|
      invariant setting == SettingTexts(settings[..i])
    {
      Snoc(settings, i);
      var p := settings[i];
      if PyMatches(p.key, SettingKey) && p.value != "" {
        setting := setting + [p.key + "=" + p.value];
      }
    }
    Whole(settings);
  }

  method AddArgs(fixed: Data, args: seq<Pair>) returns (data: Data)
    ensures data == fixed + Loose(args)
  {
    data := fixed;
    for i := 0 to |args|
      invariant data == fixed + Loose(args[..i])
    {
      Snoc(args, i);
      var p := args[i];
      if LooseKey(p.key) {
        PutLast(fixed, Loose(args[..i]), p.key, Text(p.value));
        data := data[p.key := Text(p.value)];
      }
    }
    Whole(args);
  }

  lemma PutLast(a: Data, b: Data, k: string, v: Value)
    ensures (a + b)[k := v] == a + b[k := v]
  {
  }

  lemma PutAgain(a: Data, b: Data, k: string, v: Value, w: Value)
    ensures (a[k := v] + b)[k := w] == (a + b)[k := w]
  {
  }

  lemma FixedWithVersion(project: Value, version: Value, spider: Value, jobid: Value)
    ensures map["project" := project, "_version" := version, "spider" := spider]["jobid" := jobid] ==
            map["project" := project, "spider" := spider, "jobid" := jobid] + map["_version" := version]
  {
  }

  lemma FixedWithoutVersion(project: Value, version: Value, spider: Value, jobid: Value)
    ensures (map["project" := project, "_version" := version, "spider" := spider] - {"_version"})["jobid" := jobid] ==
            map["project" := project, "spider" := spider, "jobid" := jobid] + map[]
  {
    assert |"project"| == 7 && |"_version"| == 8 && |"spider"| == 6 && |"jobid"| == 5;
  }

  // The fields every request has.
  method FixedFields(req: Request, now: string) returns (data: Data)
    ensures data == FixedData(req, now)
  {
    var jobid := Text(SanitizeJobid(if req.jobid != "" then req.jobid else now));
    data := map["project" := Text(req.project), "_version" := Text(req.version), "spider" := Text(req.spider)];
    if req.version == LATEST {
      FixedWithoutVersion(Text(req.project), Text(req.version), Text(req.spider), jobid);
      data := data - {"_version"};
    } else {
      FixedWithVersion(Text(req.project), Text(req.version), Text(req.spider), jobid);
    }
    data := data["jobid" := jobid];
  }

  // The dictionary the check page leaves for the run page.
  method ScheduleCheck(req: Request, now: string) returns (data: Data)
    ensures data == Checked(req, now)
  {
    data := FixedFields(req, now);
    data := data["setting" := Texts([])];
    var setting := CollectSettings(req.settings);
    data := AddArgs(data, req.args);
    PutAgain(FixedData(req, now), Loose(req.args), "setting", Texts([]), Texts(Sorted(setting)));
    data := data["setting" := Texts(Sorted(setting))];
    if req.trigger {
      data := data[TASK_DATA := Timer(TimerOf(req))];
    }
  }

  // ---- storing it ----

  // The nodes from 1 to amount that are ticked.
  function Selected(amount: nat, on: set<int>): (r: seq<int>)
    ensures forall n :: n in r <==> 1 <= n <= amount && n in on
    ensures forall i, j :: 0 <= i < j < |r| ==> r[i] < r[j]
  {
    if amount == 0 then []
    else
      var front := Selected(amount - 1, on);
      assert forall i :: 0 <= i < |front| ==> front[i] in front;
      if amount in on then front + [amount] else front
  }

  function TextAt(data: Data, k: string, default: string): string {
    if k in data && data[k].Text? then data[k].text else default
  }

  const POPPED := {"project", "_version", "spider", "jobid", TASK_DATA}

  // The columns written from the data; the group of the row is not among them.
  function RowOf(data: Data, timer: TimerData, nodes: seq<int>, groupId: Option<nat>): Task {
    Task(TextAt(data, "project", ""), TextAt(data, "_version", LATEST), TextAt(data, "spider", ""),
         TextAt(data, "jobid", ""), data - POPPED, nodes, timer.name, timer.schedule, timer.extras, groupId)
  }

  const COLUMN_WIDTH := 255
  const DATE_WIDTH := 19

  predicate Fits(text: Option<string>, width: nat) {
    text.Some? ==> |text.value| <= width
  }

  predicate ScheduleFits(s: Schedule) {
    && |s.year| <= COLUMN_WIDTH && |s.month| <= COLUMN_WIDTH && |s.day| <= COLUMN_WIDTH && |s.week| <= COLUMN_WIDTH
    && |s.dayOfWeek| <= COLUMN_WIDTH && |s.hour| <= COLUMN_WIDTH && |s.minute| <= COLUMN_WIDTH
    && |s.second| <= COLUMN_WIDTH
  }

  // The text columns of the task table take no longer texts than these.
  predicate FitsColumns(t: Task) {
    && |t.project| <= COLUMN_WIDTH && |t.version| <= COLUMN_WIDTH && |t.spider| <= COLUMN_WIDTH
    && |t.jobid| <= COLUMN_WIDTH && Fits(t.name, COLUMN_WIDTH) && ScheduleFits(t.schedule)
    && Fits(t.extras.startDate, DATE_WIDTH) && Fits(t.extras.endDate, DATE_WIDTH)
    && Fits(t.extras.timezone, COLUMN_WIDTH)
  }

  // The first selected node is the one addressed; its credentials are looked up by position.
  predicate Addressable(nodes: seq<int>, auths: nat) {
    nodes != [] && nodes[0] <= auths
  }

  datatype Outcome = Stored(id: nat) | NotScheduled(id: nat) | Ran(nodes: seq<int>) | Crashed

  class TaskTable {
    var rows: map<nat, Task>
    var nextId: nat

    ghost predicate Valid()
      reads this
    {
      nextId > 0 && forall id :: id in rows ==> 0 < id < nextId
    }

    constructor ()
      ensures Valid() && rows == map[]
    {
      rows, nextId := map[], 1;
    }

    // Turns the data into a task, or runs it. servers is the number of nodes there are, auths
    // for how many of them credentials are listed, and accepted whether the scheduler takes
    // the job.
    method ScheduleRun(data: Data, ticks: Ticks, node: int, servers: nat, auths: nat, accepted: bool)
      returns (r: Outcome)
      requires Valid() && "project" in data && "spider" in data && "jobid" in data
      modifies this
      ensures Valid()
      ensures r.Crashed? <==>
        (ticks.amount != 0 && !Addressable(Selected(servers, ticks.on), auths))
        || (TASK_DATA in data && match data[TASK_DATA]
            case Timer(t) =>
              || (t.taskId != 0 && t.taskId !in old(rows))
              || !FitsColumns(RowOf(data, t, if ticks.amount != 0 then Selected(servers, ticks.on) else [node], None))
            case Text(s) => s != ""
            case Texts(xs) => xs != [])
      ensures r.Crashed? || r.Ran? ==> rows == old(rows)
      ensures r.Stored? || r.NotScheduled? ==>
        && TASK_DATA in data && data[TASK_DATA].Timer?
        && var t, nodes := data[TASK_DATA].timer, if ticks.amount != 0 then Selected(servers, ticks.on) else [node];
        && r.Stored? == accepted
        && (t.taskId == 0 ==>
              && r.id == old(nextId) && r.id !in old(rows)
              && rows == old(rows)[r.id := RowOf(data, t, nodes, None)])
        && (t.taskId != 0 ==>
              && r.id == t.taskId && r.id in old(rows)
              && rows == if accepted then old(rows)[r.id := RowOf(data, t, nodes, old(rows)[r.id].groupId)]
                else old(rows))
      ensures r.Ran? ==> TASK_DATA !in data || !data[TASK_DATA].Timer?
    {
      var nodes := [node];
      if ticks.amount != 0 {
        nodes := [];
        var n := 1;
        while n <= servers
          invariant 1 <= n <= servers + 1 && nodes == Selected(n - 1, ticks.on)
        {
          if n in ticks.on {
            nodes := nodes + [n];
          }
          n := n + 1;
        }
        if nodes == [] || auths < nodes[0] {
          return Crashed;
        }
      }
      if TASK_DATA !in data || data[TASK_DATA] == Text("") || data[TASK_DATA] == Texts([]) {
        return Ran(nodes);
      }
      if !data[TASK_DATA].Timer? {
        return Crashed;
      }
      var t := data[TASK_DATA].timer;
      if !FitsColumns(RowOf(data, t, nodes, None)) {
        r := Crashed;
      } else if t.taskId == 0 {
        r := if accepted then Stored(nextId) else NotScheduled(nextId);
        rows := rows[nextId := RowOf(data, t, nodes, None)];
        nextId := nextId + 1;
      } else if t.taskId !in rows {
        r := Crashed;
      } else {
        if accepted {
          rows := rows[t.taskId := RowOf(data, t, nodes, rows[t.taskId].groupId)];
        }
        r := if accepted then Stored(t.taskId) else NotScheduled(t.taskId);
      }
    }
  }

  // ---- reading it back ----

  predicate IsLeast(s: set<string>, x: string) {
    x in s && forall y <- s :: LexLeq(x, y)
  }

  lemma {:induction false} LeastExists(s: set<string>) returns (x: string)
    requires s != {}
    ensures IsLeast(s, x)
    decreases s
  {
    var z :| z in s;
    LexTotal(z, z);
    var rest := s - {z};
    assert s == rest + {z};
    if rest == {} {
      x := z;
    } else {
      x := LeastExists(rest);
      LexTotal(x, z);
      if !LexLeq(x, z) {
        forall y <- s ensures LexLeq(z, y) {
          if y in rest {
            LexTransitive(z, x, y);
          }
        }
        x := z;
      }
    }
  }

  function Least(s: set<string>): (x: string)
    requires s != {}
    ensures IsLeast(s, x)
  {
    assert exists x :: x in s && IsLeast(s, x) by {
      var x := LeastExists(s);
    }
    assert forall x, x' :: IsLeast(s, x) && IsLeast(s, x') ==> x == x' by {
      forall x, x' | IsLeast(s, x) && IsLeast(s, x') ensures x == x' {
        LexAntisymmetric(x, x');
      }
    }
    var x :| x in s && IsLeast(s, x);
    x
  }

  // The keys in the order the stored JSON has them.
  function InOrder(keys: set<string>): (r: seq<string>)
    ensures forall k :: k in r <==> k in keys
    ensures Ascending(r) && NoRepeats(r)
  {
    if keys == {} then []
    else
      var x := Least(keys);
      [x] + InOrder(keys - {x})
  }

  // The text up to the first '=', and after it.
  function SplitSetting(s: string): Pair {
    if s == "" then Pair("", "")
    else if s[0] == '=' then Pair("", s[1..])
    else
      var p := SplitSetting(s[1..]);
      Pair([s[0]] + p.key, p.value)
  }

  function SplitSettings(xs: seq<string>): (r: seq<Pair>)
    ensures |r| == |xs| && forall i :: 0 <= i < |xs| ==> r[i] == SplitSetting(xs[i])
  {
    seq(|xs|, i requires 0 <= i < |xs| => SplitSetting(xs[i]))
  }

  // String(value)
  function ShownValue(v: Value): string {
    match v
    case Text(s) => s
    case Texts(xs) => Join(xs, ',')
    case Timer(_) => "[object Object]"
  }

  function Entries(m: Data): (r: seq<Pair>)
    ensures |r| == |InOrder(m.Keys)|
    ensures forall i :: 0 <= i < |r| ==> InOrder(m.Keys)[i] in m
    ensures forall i :: 0 <= i < |r| ==> r[i] == Pair(InOrder(m.Keys)[i], ShownValue(m[InOrder(m.Keys)[i]]))
  {
    var keys := InOrder(m.Keys);
    assert forall i :: 0 <= i < |keys| ==> keys[i] in keys;
    seq(|keys|, i requires 0 <= i < |keys| => Pair(keys[i], ShownValue(m[keys[i]])))
  }

  function TaskToForm(id: nat, t: Task): Values {
    var settings := if "setting" in t.arguments && t.arguments["setting"].Texts?
                    then SplitSettings(t.arguments["setting"].texts) else [];
    var run := Form(t.project, Or(t.version, LATEST), t.spider, t.jobid, settings, Entries(t.arguments - {"setting"}));
    Values(run, if t.nodes != [] then t.nodes else [1], Cron, if t.name.Some? then t.name.value else "", Add, id,
           t.schedule)
  }

  // ---- submitting the form ----

  method BuildScheduleForm(v: Values) returns (req: Request, ticks: Ticks)
    ensures req == Posted(v) && ticks == TicksOf(v)
  {
    var on := {};
    for i := 0 to |v.nodes|
      invariant on == set n <- v.nodes[..i]
    {
      Snoc(v.nodes, i);
      on := on + {v.nodes[i]};
    }
    Whole(v.nodes);
    ticks := Ticks(|v.nodes|, on);
    req := Request(v.run.project, if v.run.version != "" then v.run.version else LATEST, v.run.spider, v.run.jobid,
                   Kept(v.run.settings), FromEntries(Kept(v.run.args)), false, AddFire, "", 0, NO_SCHEDULE);
    if v.mode == Cron {
      req := req.(trigger := true, action := v.action, name := v.name, schedule := v.schedule);
      if v.taskId != 0 {
        req := req.(taskId := v.taskId);
      }
    }
  }

  // The row a timer form is stored as.
  function RowFor(v: Values, now: string, nodes: seq<int>, groupId: Option<nat>): Task {
    RowOf(Checked(Posted(v), now), TimerOf(Posted(v)), nodes, groupId)
  }

  function NodesOf(v: Values, servers: nat): seq<int> { Selected(servers, set n <- v.nodes) }

  // Check, then run. A timer form whose first node there is has listed credentials, and whose
  // texts fit the columns, becomes a row, or replaces the one it edits if the scheduler takes
  // the job.
  method Submit(table: TaskTable, okSetting: Pair -> bool, v: Values, now: string, node: int, servers: nat,
                auths: nat, accepted: bool)
    returns (r: Outcome)
    requires table.Valid() && SchemaValid(okSetting, v) && v.mode == Cron
    modifies table
    ensures table.Valid()
    ensures r.Crashed? <==>
      !Addressable(NodesOf(v, servers), auths) || (v.taskId != 0 && v.taskId !in old(table.rows)) ||
      !FitsColumns(RowFor(v, now, NodesOf(v, servers), None))
    ensures r.Crashed? ==> table.rows == old(table.rows)
    ensures !r.Crashed? ==> if accepted then r.Stored? else r.NotScheduled?
    ensures !r.Crashed? && v.taskId == 0 ==>
      r.id !in old(table.rows) && table.rows == old(table.rows)[r.id := RowFor(v, now, NodesOf(v, servers), None)]
    ensures !r.Crashed? && v.taskId != 0 ==>
      r.id == v.taskId && table.rows == if accepted
        then old(table.rows)[r.id := RowFor(v, now, NodesOf(v, servers), old(table.rows)[r.id].groupId)]
        else old(table.rows)
  {
    var req, ticks := BuildScheduleForm(v);
    var data := ScheduleCheck(req, now);
    assert data[TASK_DATA] == Timer(TimerOf(req));
    r := table.ScheduleRun(data, ticks, node, servers, auths, accepted);
  }

  // ---- the settings survive ----

  lemma {:induction false} KeptIsAll(pairs: seq<Pair>)
    requires forall p <- pairs :: p.key != "" && p.value != ""
    ensures Kept(pairs) == pairs
  {
    if pairs != [] {
      KeptIsAll(pairs[..|pairs| - 1]);
    }
  }

  lemma {:induction false} PutNewEntry(entries: seq<Pair>, p: Pair)
    requires forall e <- entries :: e.key != p.key
    ensures PutEntry(entries, p) == entries + [p]
  {
    if entries != [] {
      PutNewEntry(entries[1..], p);
    }
  }

  lemma {:induction false} UniqueEntries(pairs: seq<Pair>)
    requires UniqueKeys(pairs)
    ensures FromEntries(pairs) == pairs
  {
    if pairs != [] {
      var front, last := pairs[..|pairs| - 1], pairs[|pairs| - 1];
      UniqueEntries(front);
      PutNewEntry(front, last);
    }
  }

  predicate SettingsOk(settings: seq<Pair>) {
    forall p <- settings :: SettingKey(p.key) && p.value != ""
  }

  lemma {:induction false} TextsOfSettings(settings: seq<Pair>)
    requires SettingsOk(settings)
    ensures |SettingTexts(settings)| == |settings|
    ensures forall i :: 0 <= i < |settings| ==> SettingTexts(settings)[i] == KeyVal(settings[i])
  {
    if settings != [] {
      TextsOfSettings(settings[..|settings| - 1]);
    }
  }

  lemma {:induction false} SplitKeyVal(key: string, value: string)
    requires '=' !in key
    ensures SplitSetting(key + "=" + value) == Pair(key, value)
  {
    if key == "" {
      assert ("=" + value)[1..] == value;
    } else {
      SplitKeyVal(key[1..], value);
      assert (key + "=" + value)[1..] == key[1..] + "=" + value;
      assert [key[0]] + key[1..] == key;
    }
  }

  lemma NoEquals(key: string)
    requires SettingKey(key)
    ensures '=' !in key
  {
  }

  // The texts of a sorted list of settings split back into those settings.
  lemma SplitTexts(settings: seq<Pair>)
    requires SettingsOk(settings)
    ensures SplitSettings(SettingTexts(settings)) == settings
  {
    TextsOfSettings(settings);
    forall i | 0 <= i < |settings| ensures SplitSetting(SettingTexts(settings)[i]) == settings[i] {
      NoEquals(settings[i].key);
      SplitKeyVal(settings[i].key, settings[i].value);
    }
  }

  predicate IsSettingText(s: string) {
    SettingKey(SplitSetting(s).key) && SplitSetting(s).value != "" && KeyVal(SplitSetting(s)) == s
  }

  lemma TextsAreSettingTexts(settings: seq<Pair>)
    requires SettingsOk(settings)
    ensures forall s <- SettingTexts(settings) :: IsSettingText(s)
  {
    TextsOfSettings(settings);
    SplitTexts(settings);
    forall s | s in SettingTexts(settings) ensures IsSettingText(s) {
      var i :| 0 <= i < |settings| && SettingTexts(settings)[i] == s;
      assert settings[i] in settings;
    }
  }

  lemma JoinAgain(xs: seq<string>)
    requires forall s <- xs :: IsSettingText(s)
    ensures SettingsOk(SplitSettings(xs)) && SettingTexts(SplitSettings(xs)) == xs
  {
    var r := SplitSettings(xs);
    forall i | 0 <= i < |xs| ensures IsSettingText(xs[i]) {
      assert xs[i] in xs;
    }
    forall p | p in r ensures SettingKey(p.key) && p.value != "" {
      var i :| 0 <= i < |r| && r[i] == p;
    }
    TextsOfSettings(r);
  }

  lemma {:induction false} SplitCounts(xs: seq<string>, p: Pair)
    requires forall s <- xs :: IsSettingText(s)
    ensures multiset(SplitSettings(xs))[p] == if SplitSetting(KeyVal(p)) == p then multiset(xs)[KeyVal(p)] else 0
  {
    if xs != [] {
      var front, last := xs[..|xs| - 1], xs[|xs| - 1];
      assert xs == front + [last] && last in xs;
      SplitCounts(front, p);
      assert SplitSettings(xs) == SplitSettings(front) + [SplitSetting(last)];
    }
  }

  lemma SplitPermutes(xs: seq<string>, ys: seq<string>)
    requires multiset(xs) == multiset(ys) && forall s <- xs :: IsSettingText(s)
    ensures multiset(SplitSettings(xs)) == multiset(SplitSettings(ys))
  {
    forall s | s in ys ensures IsSettingText(s) {
      assert s in multiset(xs);
    }
    forall p: Pair ensures multiset(SplitSettings(xs))[p] == multiset(SplitSettings(ys))[p] {
      SplitCounts(xs, p);
      SplitCounts(ys, p);
    }
  }

  function LoadedSettings(settings: seq<Pair>): seq<Pair> {
    SplitSettings(Sorted(SettingTexts(settings)))
  }

  lemma SettingsSurvive(settings: seq<Pair>)
    requires SettingsOk(settings)
    ensures var r := LoadedSettings(settings);
      && multiset(r) == multiset(settings) && SettingsOk(r)
      && SettingTexts(r) == Sorted(SettingTexts(settings)) && Ascending(SettingTexts(r))
      && LoadedSettings(r) == r
  {
    var texts := SettingTexts(settings);
    TextsAreSettingTexts(settings);
    forall s | s in Sorted(texts) ensures IsSettingText(s) {
      assert s in multiset(texts);
    }
    SplitTexts(settings);
    SplitPermutes(texts, Sorted(texts));
    JoinAgain(Sorted(texts));
    SortedAgain(Sorted(texts));
  }

  lemma StillUnique(a: seq<Pair>, b: seq<Pair>)
    requires UniqueKeys(a) && multiset(a) == multiset(b)
    ensures UniqueKeys(b)
  {
    StillOnce(a, b);
    forall i, j | 0 <= i < j < |b| ensures b[i].key != b[j].key {
      assert b[i] in multiset(a) && b[j] in multiset(a);
    }
  }

  // ---- the arguments survive ----

  predicate ArgsOk(args: seq<Pair>) {
    (forall p <- args :: LooseKey(p.key)) && UniqueKeys(args)
  }

  predicate Holds(m: Data, p: Pair) { p.key in m && m[p.key] == Text(p.value) }

  lemma {:induction false} LooseHolds(args: seq<Pair>, p: Pair)
    requires ArgsOk(args)
    ensures Holds(Loose(args), p) <==> p in args
  {
    if args != [] {
      var front, last := args[..|args| - 1], args[|args| - 1];
      assert args == front + [last] && last in args;
      LooseHolds(front, p);
    }
  }

  predicate AllTexts(m: Data) { forall k :: k in m ==> LooseKey(k) && m[k].Text? }

  function KeysOf(pairs: seq<Pair>): (r: seq<string>)
    ensures |r| == |pairs| && forall i :: 0 <= i < |r| ==> r[i] == pairs[i].key
  {
    seq(|pairs|, i requires 0 <= i < |pairs| => pairs[i].key)
  }

  lemma KeysOfEntries(m: Data)
    ensures KeysOf(Entries(m)) == InOrder(m.Keys)
  {
  }

  lemma EntriesHold(m: Data, p: Pair)
    requires AllTexts(m)
    ensures p in Entries(m) <==> Holds(m, p)
  {
    var keys := InOrder(m.Keys);
    if p in Entries(m) {
      var i :| 0 <= i < |keys| && Entries(m)[i] == p;
      assert keys[i] in keys;
    }
    if Holds(m, p) {
      assert p.key in keys;
      var i :| 0 <= i < |keys| && keys[i] == p.key;
      assert Entries(m)[i] == p;
    }
  }

  lemma EntriesAreOk(m: Data)
    requires AllTexts(m)
    ensures ArgsOk(Entries(m)) && Ascending(KeysOf(Entries(m)))
  {
    KeysOfEntries(m);
    forall p | p in Entries(m) ensures LooseKey(p.key) {
      EntriesHold(m, p);
    }
    forall i, j | 0 <= i < j < |Entries(m)| ensures Entries(m)[i].key != Entries(m)[j].key {
      assert KeysOf(Entries(m))[i] != KeysOf(Entries(m))[j];
    }
  }

  lemma LooseKeysOf(args: seq<Pair>, m: Data)
    requires AllTexts(m) && ArgsOk(args) && forall p :: p in args <==> Holds(m, p)
    ensures Loose(args) == m
  {
    forall k ensures k in Loose(args) <==> k in m {
      if k in Loose(args) {
        LooseHolds(args, Pair(k, Loose(args)[k].text));
      }
      if k in m {
        LooseHolds(args, Pair(k, m[k].text));
      }
    }
    forall k | k in m ensures Loose(args)[k] == m[k] {
      LooseHolds(args, Pair(k, m[k].text));
    }
  }

  // Reading the entries of a dictionary of texts gives the dictionary back.
  lemma EntriesRoundTrip(m: Data)
    requires AllTexts(m)
    ensures Loose(Entries(m)) == m
  {
    EntriesAreOk(m);
    forall p: Pair ensures p in Entries(m) <==> Holds(m, p) {
      EntriesHold(m, p);
    }
    LooseKeysOf(Entries(m), m);
  }

  function LoadedArgs(args: seq<Pair>): seq<Pair> { Entries(Loose(args) - {TASK_DATA}) }

  lemma ArgsSurvive(args: seq<Pair>)
    requires ArgsOk(args)
    ensures var r := LoadedArgs(args);
      && (forall p :: p in r <==> p in args && p.key != TASK_DATA)
      && ArgsOk(r) && Ascending(KeysOf(r)) && LoadedArgs(r) == r
  {
    var m := Loose(args) - {TASK_DATA};
    EntriesAreOk(m);
    forall p ensures p in Entries(m) <==> p in args && p.key != TASK_DATA {
      EntriesHold(m, p);
      LooseHolds(args, p);
    }
    EntriesRoundTrip(m);
    assert m - {TASK_DATA} == m;
  }

  // ---- the round trip ----

  lemma ValidIsKept(okSetting: Pair -> bool, v: Values)
    requires SchemaValid(okSetting, v)
    ensures Kept(v.run.settings) == v.run.settings && FromEntries(Kept(v.run.args)) == v.run.args
    ensures SettingsOk(v.run.settings) && ArgsOk(v.run.args)
  {
    KeptIsAll(v.run.settings);
    KeptIsAll(v.run.args);
    UniqueEntries(v.run.args);
  }

  lemma FixedKeys(req: Request, now: string, k: string)
    requires k in FixedData(req, now)
    ensures k in RESERVED && k in POPPED && k != "setting" && k != TASK_DATA
  {
  }

  // Below the timer data and the settings, the loose arguments; below those, the fixed fields.
  lemma CheckedAt(req: Request, now: string, k: string)
    requires req.trigger && k != TASK_DATA && k != "setting"
    ensures k in Checked(req, now) <==> k in Loose(req.args) || k in FixedData(req, now)
    ensures k in Loose(req.args) ==> Checked(req, now)[k] == Loose(req.args)[k] && k !in POPPED
    ensures k in FixedData(req, now) ==> Checked(req, now)[k] == FixedData(req, now)[k] && k in POPPED
  {
    if k in FixedData(req, now) {
      FixedKeys(req, now, k);
    }
  }

  lemma SettingName()
    ensures "setting" !in POPPED && "setting" in RESERVED && "setting" != TASK_DATA
  {
    assert |"setting"| == 7 && |"project"| == 7 && "setting"[0] != "project"[0];
    assert |"_version"| == 8 && |"spider"| == 6 && |"jobid"| == 5 && |TASK_DATA| == 11;
  }

  lemma LooseIsUnreserved(args: seq<Pair>, k: string)
    requires k in RESERVED
    ensures k !in Loose(args)
  {
  }

  lemma SettingAt(req: Request, now: string)
    ensures "setting" in Checked(req, now)
    ensures Checked(req, now)["setting"] == Texts(Sorted(SettingTexts(req.settings)))
    ensures "setting" !in POPPED && "setting" !in Loose(req.args) && "setting" != TASK_DATA
  {
    SettingName();
    LooseIsUnreserved(req.args, "setting");
  }

  lemma StoredArguments(req: Request, now: string)
    requires req.trigger
    ensures var a, texts := Checked(req, now) - POPPED, Texts(Sorted(SettingTexts(req.settings)));
      a == (Loose(req.args) - {TASK_DATA})["setting" := texts] && a - {"setting"} == Loose(req.args) - {TASK_DATA}
  {
    var loose, data, texts := Loose(req.args), Checked(req, now), Texts(Sorted(SettingTexts(req.settings)));
    SettingAt(req, now);
    forall k | k != "setting" && k != TASK_DATA
      ensures k in data && k !in POPPED <==> k in loose
      ensures k in loose ==> data[k] == loose[k]
    {
      CheckedAt(req, now, k);
    }
    SameArguments(loose, data, texts);
  }

  lemma SameArguments(loose: Data, data: Data, texts: Value)
    requires "setting" in data && data["setting"] == texts && "setting" !in POPPED && "setting" !in loose
    requires "setting" != TASK_DATA
    requires forall k :: k != "setting" && k != TASK_DATA ==> (k in data && k !in POPPED <==> k in loose)
    requires forall k :: k != "setting" && k != TASK_DATA && k in loose ==> data[k] == loose[k]
    ensures data - POPPED == (loose - {TASK_DATA})["setting" := texts]
    ensures data - POPPED - {"setting"} == loose - {TASK_DATA}
  {
    assert TASK_DATA in POPPED;
  }

  lemma StoredColumns(req: Request, now: string)
    requires req.trigger
    ensures var data := Checked(req, now);
      && TextAt(data, "project", "") == req.project && TextAt(data, "_version", LATEST) == req.version
      && TextAt(data, "spider", "") == req.spider && TextAt(data, "jobid", "") == SanitizeJobid(Or(req.jobid, now))
  {
    CheckedAt(req, now, "project");
    CheckedAt(req, now, "_version");
    CheckedAt(req, now, "spider");
    CheckedAt(req, now, "jobid");
    assert "_version" !in Loose(req.args);
  }

  // What is read back of a valid timer form.
  lemma LoadedIs(okSetting: Pair -> bool, v: Values, now: string, nodes: seq<int>, groupId: Option<nat>, id: nat)
    requires SchemaValid(okSetting, v) && v.mode == Cron && nodes != []
    ensures TaskToForm(id, RowFor(v, now, nodes, groupId)) ==
      Values(Form(v.run.project, Or(v.run.version, LATEST), v.run.spider, SanitizeJobid(Or(v.run.jobid, now)),
                  LoadedSettings(v.run.settings), LoadedArgs(v.run.args)),
             nodes, Cron, v.name, Add, id, DefaultSchedule(v.schedule))
  {
    ValidIsKept(okSetting, v);
    StoredArguments(Posted(v), now);
    StoredColumns(Posted(v), now);
  }

  predicate Entered(stored: string, entered: string, blank: string) {
    stored == if entered == "" then blank else entered
  }

  // Every field comes back as entered; a blank one runs at every value, a blank minute or
  // second at zero.
  predicate ScheduleKept(stored: Schedule, entered: Schedule) {
    && Entered(stored.year, entered.year, "*") && Entered(stored.month, entered.month, "*")
    && Entered(stored.day, entered.day, "*") && Entered(stored.week, entered.week, "*")
    && Entered(stored.dayOfWeek, entered.dayOfWeek, "*") && Entered(stored.hour, entered.hour, "*")
    && Entered(stored.minute, entered.minute, "0") && Entered(stored.second, entered.second, "0")
  }

  lemma DefaultsKeep(s: Schedule)
    ensures ScheduleKept(DefaultSchedule(s), s)
  {
  }

  // A valid timer form, stored and loaded for editing: settings and arguments are the same,
  // sorted, and the blanks are filled in. Only an argument named __task_data is lost.
  lemma RoundTrip(okSetting: Pair -> bool, v: Values, now: string, servers: nat, groupId: Option<nat>, id: nat)
    requires SchemaValid(okSetting, v) && v.mode == Cron && NodesOf(v, servers) != []
    ensures var f := TaskToForm(id, RowFor(v, now, NodesOf(v, servers), groupId));
      && f.run.project == v.run.project && f.run.spider == v.run.spider && f.run.version == Or(v.run.version, LATEST)
      && f.run.jobid == SanitizeJobid(Or(v.run.jobid, now))
      && multiset(f.run.settings) == multiset(v.run.settings) && Ascending(SettingTexts(f.run.settings))
      && (forall p :: p in f.run.args <==> p in v.run.args && p.key != TASK_DATA)
      && Ascending(KeysOf(f.run.args))
      && (forall n :: n in f.nodes <==> n in v.nodes && 1 <= n <= servers)
      && (forall i, j :: 0 <= i < j < |f.nodes| ==> f.nodes[i] < f.nodes[j])
      && f.mode == Cron && f.name == v.name && f.action == Add && f.taskId == id
      && ScheduleKept(f.schedule, v.schedule)
      && SchemaValid(okSetting, f)
  {
    LoadedIs(okSetting, v, now, NodesOf(v, servers), groupId, id);
    DefaultsKeep(v.schedule);
    ValidIsKept(okSetting, v);
    SettingsSurvive(v.run.settings);
    ArgsSurvive(v.run.args);
    LoadedIsValid(okSetting, v);
  }

  lemma LoadedIsValid(okSetting: Pair -> bool, v: Values)
    requires SchemaValid(okSetting, v)
    ensures forall p <- LoadedSettings(v.run.settings) :: SettingKey(p.key) && p.value != "" && okSetting(p)
    ensures UniqueKeys(LoadedSettings(v.run.settings))
    ensures forall p <- LoadedArgs(v.run.args) :: ArgKey(p.key) && p.value != "" && p.key !in RESERVED
    ensures UniqueKeys(LoadedArgs(v.run.args))
  {
    ValidIsKept(okSetting, v);
    SettingsSurvive(v.run.settings);
    ArgsSurvive(v.run.args);
    StillUnique(v.run.settings, LoadedSettings(v.run.settings));
    forall p | p in LoadedSettings(v.run.settings) ensures p in v.run.settings {
      assert p in multiset(v.run.settings);
    }
  }

  // Every argument comes back exactly when none takes the name the timer data are kept under.
  lemma ArgsSurviveIff(okSetting: Pair -> bool, v: Values, now: string, servers: nat, groupId: Option<nat>, id: nat)
    requires SchemaValid(okSetting, v) && v.mode == Cron && NodesOf(v, servers) != []
    ensures var f := TaskToForm(id, RowFor(v, now, NodesOf(v, servers), groupId));
      (forall p :: p in f.run.args <==> p in v.run.args) <==> (forall p <- v.run.args :: p.key != TASK_DATA)
  {
    RoundTrip(okSetting, v, now, servers, groupId, id);
  }

  // A timer form with this one argument.
  function WithArgument(project: string, spider: string, node: int, p: Pair): Values {
    Values(Form(project, "", spider, "", [], [p]), [node], Cron, "", Add, 0, NO_SCHEDULE)
  }

  lemma TaskDataIsArgKey()
    ensures ArgKey(TASK_DATA) && TASK_DATA !in RESERVED
  {
    assert |TASK_DATA| == 11 && |"_version"| == 8 && |"project"| == 7 && |"filename"| == 8;
  }

  lemma OneArgumentIsValid(okSetting: Pair -> bool, project: string, spider: string, node: int, p: Pair)
    requires project != "" && spider != "" && p.value != "" && ArgKey(p.key) && p.key !in RESERVED
    ensures SchemaValid(okSetting, WithArgument(project, spider, node, p))
  {
  }

  lemma OneNode(node: nat, servers: nat, on: set<int>)
    requires 1 <= node <= servers && on == {node}
    ensures Selected(servers, on) != []
  {
    assert node in Selected(servers, on);
  }

  // The form accepts an argument named __task_data, and the stored row has lost it.
  lemma TaskDataArgumentIsLost(okSetting: Pair -> bool, project: string, spider: string, node: nat, value: string,
                               now: string, servers: nat, groupId: Option<nat>, id: nat, v: Values)
    requires project != "" && spider != "" && value != "" && 1 <= node <= servers
    requires v == WithArgument(project, spider, node, Pair(TASK_DATA, value))
    ensures SchemaValid(okSetting, v) && NodesOf(v, servers) != []
    ensures v.run.args != [] && TaskToForm(id, RowFor(v, now, NodesOf(v, servers), groupId)).run.args == []
  {
    TaskDataIsArgKey();
    OneArgumentIsValid(okSetting, project, spider, node, Pair(TASK_DATA, value));
    OneNode(node, servers, set n <- v.nodes);
    RoundTrip(okSetting, v, now, servers, groupId, id);
    NoOtherArgument(v, TaskToForm(id, RowFor(v, now, NodesOf(v, servers), groupId)));
  }

  lemma EmptyOrMember(pairs: seq<Pair>)
    ensures pairs == [] || exists p :: p in pairs
  {
    if pairs != [] {
      assert pairs[0] in pairs;
    }
  }

  lemma NoOtherArgument(v: Values, f: Values)
    requires v.run.args != [] && forall p <- v.run.args :: p.key == TASK_DATA
    requires forall p :: p in f.run.args <==> p in v.run.args && p.key != TASK_DATA
    ensures f.run.args == []
  {
    EmptyOrMember(f.run.args);
  }

  lemma SanitizedAgain(s: string)
    ensures SanitizeJobid(SanitizeJobid(s)) == SanitizeJobid(s)
  {
    assert forall i :: 0 <= i < |s| ==> SanitizeJobid(SanitizeJobid(s))[i] == SanitizeJobid(s)[i];
  }

  lemma {:induction false} SelectedByMembers(servers: nat, on: set<int>, on': set<int>)
    requires forall n :: 1 <= n <= servers ==> (n in on <==> n in on')
    ensures Selected(servers, on) == Selected(servers, on')
  {
    if servers > 0 {
      SelectedByMembers(servers - 1, on, on');
    }
  }

  lemma {:induction false} SelectedBeyond(servers: nat, more: nat, on: set<int>)
    requires servers <= more && forall n <- on :: n <= servers
    ensures Selected(more, on) == Selected(servers, on)
  {
    if servers < more {
      SelectedBeyond(servers, more - 1, on);
    }
  }

  // As long as no node has been removed, the nodes of a loaded form are selected again.
  lemma NodesAgain(servers: nat, more: nat, on: set<int>)
    requires servers <= more
    ensures var s := Selected(servers, on); Selected(more, set n <- s) == s
  {
    var s := Selected(servers, on);
    SelectedBeyond(servers, more, set n <- s);
    SelectedByMembers(servers, on, set n <- s);
  }

  lemma ScheduleAgain(s: Schedule)
    ensures DefaultSchedule(DefaultSchedule(s)) == DefaultSchedule(s)
  {
  }

  lemma JobidAgain(jobid: string, now: string, later: string)
    requires now != ""
    ensures SanitizeJobid(Or(SanitizeJobid(Or(jobid, now)), later)) == SanitizeJobid(Or(jobid, now))
  {
    SanitizedAgain(Or(jobid, now));
    assert |SanitizeJobid(Or(jobid, now))| == |Or(jobid, now)|;
  }

  lemma VersionAgain(version: string)
    ensures Or(Or(version, LATEST), LATEST) == Or(version, LATEST)
  {
  }

  // What a second save and load starts from.
  lemma LoadedAgain(okSetting: Pair -> bool, v: Values, now: string, servers: nat, groupId: Option<nat>, id: nat,
                    more: nat, f: Values)
    requires SchemaValid(okSetting, v) && v.mode == Cron && NodesOf(v, servers) != [] && servers <= more
    requires f == TaskToForm(id, RowFor(v, now, NodesOf(v, servers), groupId))
    ensures SchemaValid(okSetting, f) && f.mode == Cron && NodesOf(f, more) == NodesOf(v, servers) == f.nodes
  {
    RoundTrip(okSetting, v, now, servers, groupId, id);
    LoadedIs(okSetting, v, now, NodesOf(v, servers), groupId, id);
    NodesAgain(servers, more, set n <- v.nodes);
  }

  lemma ListsAgain(okSetting: Pair -> bool, v: Values)
    requires SchemaValid(okSetting, v)
    ensures LoadedArgs(LoadedArgs(v.run.args)) == LoadedArgs(v.run.args)
    ensures LoadedSettings(LoadedSettings(v.run.settings)) == LoadedSettings(v.run.settings)
  {
    ValidIsKept(okSetting, v);
    SettingsSurvive(v.run.settings);
    ArgsSurvive(v.run.args);
  }

  // Saving a loaded form and loading it again changes nothing more.
  lemma SecondTripIsIdentity(okSetting: Pair -> bool, v: Values, now: string, servers: nat, groupId: Option<nat>,
                             id: nat, later: string, more: nat)
    requires SchemaValid(okSetting, v) && v.mode == Cron && NodesOf(v, servers) != []
    requires now != "" && servers <= more
    ensures var f := TaskToForm(id, RowFor(v, now, NodesOf(v, servers), groupId));
      TaskToForm(id, RowFor(f, later, NodesOf(f, more), groupId)) == f
  {
    var f := TaskToForm(id, RowFor(v, now, NodesOf(v, servers), groupId));
    LoadedAgain(okSetting, v, now, servers, groupId, id, more, f);
    LoadedIs(okSetting, v, now, NodesOf(v, servers), groupId, id);
    LoadedIs(okSetting, f, later, NodesOf(f, more), groupId, id);
    ListsAgain(okSetting, v);
    ScheduleAgain(v.schedule);
    JobidAgain(v.run.jobid, now, later);
    VersionAgain(v.run.version);
  }

  // The row of a valid timer form.
  lemma RowIs(okSetting: Pair -> bool, v: Values, now: string, nodes: seq<int>, groupId: Option<nat>)
    requires SchemaValid(okSetting, v) && v.mode == Cron
    ensures RowFor(v, now, nodes, groupId) ==
      Task(v.run.project, Or(v.run.version, LATEST), v.run.spider, SanitizeJobid(Or(v.run.jobid, now)),
           (Loose(v.run.args) - {TASK_DATA})["setting" := Texts(Sorted(SettingTexts(v.run.settings)))],
           nodes, OrNone(v.name), DefaultSchedule(v.schedule), DEFAULT_EXTRAS, groupId)
  {
    ValidIsKept(okSetting, v);
    StoredArguments(Posted(v), now);
    StoredColumns(Posted(v), now);
  }

  lemma SavedAgain(okSetting: Pair -> bool, v: Values, now: string, servers: nat, groupId: Option<nat>, id: nat,
                   later: string, more: nat)
    requires SchemaValid(okSetting, v) && v.mode == Cron && NodesOf(v, servers) != []
    requires now != "" && servers <= more
    ensures var row := RowFor(v, now, NodesOf(v, servers), groupId);
      var f := TaskToForm(id, row);
      RowFor(f, later, NodesOf(f, more), groupId) == row
  {
    var f := TaskToForm(id, RowFor(v, now, NodesOf(v, servers), groupId));
    LoadedAgain(okSetting, v, now, servers, groupId, id, more, f);
    LoadedIs(okSetting, v, now, NodesOf(v, servers), groupId, id);
    RowIs(okSetting, v, now, NodesOf(v, servers), groupId);
    RowIs(okSetting, f, later, NodesOf(f, more), groupId);
    ArgumentsAgain(okSetting, v);
    ScheduleAgain(v.schedule);
    JobidAgain(v.run.jobid, now, later);
    VersionAgain(v.run.version);
  }

  lemma ArgumentsAgain(okSetting: Pair -> bool, v: Values)
    requires SchemaValid(okSetting, v)
    ensures Loose(LoadedArgs(v.run.args)) - {TASK_DATA} == Loose(v.run.args) - {TASK_DATA}
    ensures Sorted(SettingTexts(LoadedSettings(v.run.settings))) == Sorted(SettingTexts(v.run.settings))
  {
    ValidIsKept(okSetting, v);
    SettingsSurvive(v.run.settings);
    SortedAgain(Sorted(SettingTexts(v.run.settings)));
    var m := Loose(v.run.args) - {TASK_DATA};
    EntriesRoundTrip(m);
    assert m - {TASK_DATA} == m;
  }

  // Opening a task and saving it as it is leaves the row alone exactly when the scheduler
  // options without a field in the form have their defaults; the others are reset.
  lemma UntouchedEditIff(okSetting: Pair -> bool, v: Values, now: string, servers: nat, groupId: Option<nat>, id: nat,
                         extras: Extras, later: string, more: nat)
    requires SchemaValid(okSetting, v) && v.mode == Cron && NodesOf(v, servers) != []
    requires now != "" && servers <= more
    ensures var row := RowFor(v, now, NodesOf(v, servers), groupId).(extras := extras);
      var f := TaskToForm(id, row);
      RowFor(f, later, NodesOf(f, more), groupId) == row <==> extras == DEFAULT_EXTRAS
  {
    var base := RowFor(v, now, NodesOf(v, servers), groupId);
    assert TaskToForm(id, base.(extras := extras)) == TaskToForm(id, base);
    SavedAgain(okSetting, v, now, servers, groupId, id, later, more);
    RowIs(okSetting, v, now, NodesOf(v, servers), groupId);
  }

  // A task that runs in a time zone of its own: opened and saved as it is, it no longer does.
  lemma TimezoneIsReset(okSetting: Pair -> bool, v: Values, now: string, servers: nat, groupId: Option<nat>, id: nat,
                        zone: string, row: Task, f: Values)
    requires SchemaValid(okSetting, v) && v.mode == Cron && NodesOf(v, servers) != [] && now != ""
    requires row == RowFor(v, now, NodesOf(v, servers), groupId).(extras := DEFAULT_EXTRAS.(timezone := Some(zone)))
    requires f == TaskToForm(id, row)
    ensures row.extras.timezone == Some(zone)
    ensures RowFor(f, now, NodesOf(f, servers), groupId) == row.(extras := DEFAULT_EXTRAS)
  {
    var base := RowFor(v, now, NodesOf(v, servers), groupId);
    assert TaskToForm(id, row) == TaskToForm(id, base);
    SavedAgain(okSetting, v, now, servers, groupId, id, now, servers);
    RowIs(okSetting, v, now, NodesOf(v, servers), groupId);
  }
}
