// What becomes of the fields of a form, named one by one: the stored row, the timer data, and
// the command that the browser shows for the same form.
module TaskFormPost {
  import opened CurlPreview
  import opened Options
  import opened Sequences
  import opened SortedTexts
  import opened TaskForm

  // ---- the stored row ----

  function KeyVals(settings: seq<Pair>): (r: seq<string>)
    ensures |r| == |settings| && forall i :: 0 <= i < |r| ==> r[i] == settings[i].key + "=" + settings[i].value
  {
    seq(|settings|, i requires 0 <= i < |settings| => settings[i].key + "=" + settings[i].value)
  }

  lemma SettingTextsAre(settings: seq<Pair>)
    requires SettingsOk(settings)
    ensures SettingTexts(settings) == KeyVals(settings)
  {
    TextsOfSettings(settings);
  }

  // The row of a valid timer form has the fields of the form, blanks filled in; its arguments
  // are the form's, except one named __task_data, and the settings as sorted KEY=VAL texts.
  lemma StoredRow(okSetting: Pair -> bool, v: Values, now: string, nodes: seq<int>, groupId: Option<nat>)
    requires SchemaValid(okSetting, v) && v.mode == Cron
    ensures var row := RowFor(v, now, nodes, groupId);
      && row.project == v.run.project && row.spider == v.run.spider
      && row.version == (if v.run.version == "" then "default: the latest version" else v.run.version)
      && row.jobid == SanitizeJobid(if v.run.jobid == "" then now else v.run.jobid)
      && row.nodes == nodes && row.name == (if v.name == "" then None else Some(v.name))
      && ScheduleKept(row.schedule, v.schedule) && row.groupId == groupId
      && row.extras == Extras(None, None, None, 0, Some(600), true, 1)
  {
    RowIs(okSetting, v, now, nodes, groupId);
    DefaultsKeep(v.schedule);
  }

  lemma StoredArgumentsAre(okSetting: Pair -> bool, v: Values, now: string, nodes: seq<int>, groupId: Option<nat>)
    requires SchemaValid(okSetting, v) && v.mode == Cron
    ensures var arguments := RowFor(v, now, nodes, groupId).arguments;
      && (forall p <- v.run.args ::
            p.key != "__task_data" ==> p.key in arguments && arguments[p.key] == Value.Text(p.value))
      && (forall k :: k in arguments ==>
            k == "setting" || exists p <- v.run.args :: p.key == k && p.key != "__task_data")
      && "setting" in arguments && arguments["setting"].Texts?
      && multiset(arguments["setting"].texts) == multiset(KeyVals(v.run.settings))
      && Ascending(arguments["setting"].texts)
  {
    RowIs(okSetting, v, now, nodes, groupId);
    ValidIsKept(okSetting, v);
    SettingTextsAre(v.run.settings);
    LooseIs(v.run.args);
  }

  // The loose arguments are the pairs.
  lemma LooseIs(args: seq<Pair>)
    requires ArgsOk(args)
    ensures forall p <- args :: p.key in Loose(args) && Loose(args)[p.key] == Value.Text(p.value) && p.key != "setting"
    ensures forall k :: k in Loose(args) ==> exists p <- args :: p.key == k && Loose(args)[k] == Value.Text(p.value)
  {
    SettingName();
    forall p | p in args
      ensures p.key in Loose(args) && Loose(args)[p.key] == Value.Text(p.value) && p.key != "setting"
    {
      LooseHolds(args, p);
    }
    forall k | k in Loose(args) ensures exists p <- args :: p.key == k && Loose(args)[k] == Value.Text(p.value) {
      LooseHolds(args, Pair(k, Loose(args)[k].text));
    }
  }

  // The row fits the columns of the table exactly when no text of the form is longer than 255
  // characters.
  lemma FormFitsIff(okSetting: Pair -> bool, v: Values, now: string, nodes: seq<int>, groupId: Option<nat>)
    requires SchemaValid(okSetting, v) && v.mode == Cron
    ensures FitsColumns(RowFor(v, now, nodes, groupId)) <==>
      && |v.run.project| <= 255 && |v.run.version| <= 255 && |v.run.spider| <= 255
      && |if v.run.jobid == "" then now else v.run.jobid| <= 255 && |v.name| <= 255
      && |v.schedule.year| <= 255 && |v.schedule.month| <= 255 && |v.schedule.day| <= 255
      && |v.schedule.week| <= 255 && |v.schedule.dayOfWeek| <= 255 && |v.schedule.hour| <= 255
      && |v.schedule.minute| <= 255 && |v.schedule.second| <= 255
  {
    StoredRow(okSetting, v, now, nodes, groupId);
    assert |"default: the latest version"| == 27;
    RowFits(RowFor(v, now, nodes, groupId), v.schedule);
  }

  lemma RowFits(row: Task, s: Schedule)
    requires ScheduleKept(row.schedule, s) && row.extras == Extras(None, None, None, 0, Some(600), true, 1)
    ensures FitsColumns(row) <==>
      && |row.project| <= 255 && |row.version| <= 255 && |row.spider| <= 255 && |row.jobid| <= 255
      && (row.name.Some? ==> |row.name.value| <= 255)
      && |s.year| <= 255 && |s.month| <= 255 && |s.day| <= 255 && |s.week| <= 255 && |s.dayOfWeek| <= 255
      && |s.hour| <= 255 && |s.minute| <= 255 && |s.second| <= 255
  {
  }

  // The first node there is can be addressed exactly when some ticked node exists and has
  // credentials listed.
  lemma AddressableIff(v: Values, servers: nat, auths: nat)
    ensures Addressable(NodesOf(v, servers), auths) <==> exists n <- v.nodes :: 1 <= n <= servers && n <= auths
  {
    var nodes := NodesOf(v, servers);
    if nodes != [] {
      assert nodes[0] in nodes;
    }
    if n :| n in v.nodes && 1 <= n <= servers && n <= auths {
      assert n in nodes;
      var i :| 0 <= i < |nodes| && nodes[i] == n;
      assert nodes[0] <= nodes[i];
    }
  }

  // ---- which pairs are posted and accepted ----

  // Pairs without a name or a value are not posted.
  lemma {:induction false} KeptMembers(pairs: seq<Pair>, p: Pair)
    ensures p in TaskForm.Kept(pairs) <==> p in pairs && p.key != "" && p.value != ""
  {
    if pairs != [] {
      KeptMembers(pairs[..|pairs| - 1], p);
      assert pairs == pairs[..|pairs| - 1] + [pairs[|pairs| - 1]];
    }
  }

  // A setting is a capital letter and up to thirty capital letters, digits and underscores; an
  // argument a letter or underscore and any number of letters, digits and underscores.
  lemma NamesAre(k: string)
    ensures SettingKey(k) <==>
      && 1 <= |k| <= 31 && 'A' <= k[0] <= 'Z'
      && forall i :: 1 <= i < |k| ==> 'A' <= k[i] <= 'Z' || '0' <= k[i] <= '9' || k[i] == '_'
    ensures ArgKey(k) <==>
      && |k| >= 1 && ('A' <= k[0] <= 'Z' || 'a' <= k[0] <= 'z' || k[0] == '_')
      && forall i :: 1 <= i < |k| ==>
           'A' <= k[i] <= 'Z' || 'a' <= k[i] <= 'z' || '0' <= k[i] <= '9' || k[i] == '_'
  {
    if k != "" {
      assert k == [k[0]] + k[1..];
      assert forall c <- k :: exists i :: 0 <= i < |k| && k[i] == c;
      assert forall i :: 0 <= i < |k| ==> k[i] in k;
    }
  }

  // ---- the timer data ----

  // The data of a timer form carry its action, the task it edits and its name; those of a form
  // that runs now carry no timer, unless an argument takes the name.
  lemma TimerTravels(okSetting: Pair -> bool, v: Values, now: string)
    requires SchemaValid(okSetting, v)
    ensures var data := Checked(Posted(v), now);
      && (v.mode == Cron ==>
            && "__task_data" in data && data["__task_data"].Timer?
            && data["__task_data"].timer.action == v.action && data["__task_data"].timer.taskId == v.taskId
            && data["__task_data"].timer.name == (if v.name == "" then None else Some(v.name))
            && ScheduleKept(data["__task_data"].timer.schedule, v.schedule))
      && (v.mode == Now && (forall p <- v.run.args :: p.key != "__task_data") ==> "__task_data" !in data)
  {
    DefaultsKeep(v.schedule);
    if v.mode == Now && forall p <- v.run.args :: p.key != "__task_data" {
      ValidIsKept(okSetting, v);
      LooseIs(v.run.args);
      NoTimerKey(Posted(v), now);
    }
  }

  lemma NoTimerKey(req: Request, now: string)
    requires !req.trigger && TASK_DATA !in Loose(req.args)
    ensures TASK_DATA !in Checked(req, now)
  {
    SettingName();
    if TASK_DATA in FixedData(req, now) {
      FixedKeys(req, now, TASK_DATA);
      assert false;
    }
  }

  // ---- the fields that are posted to scrapyd ----

  // One field of a data dictionary, as scrapyd's schedule.json takes it.
  ghost predicate Posts(data: Data, x: string) {
    || (exists k :: k in data && data[k].Text? && x == k + "=" + data[k].text)
    || ("setting" in data && data["setting"].Texts? && exists s <- data["setting"].texts :: x == "setting=" + s)
  }

  lemma DataAt(req: Request, now: string, k: string)
    requires !req.trigger && k != "setting"
    ensures k in Checked(req, now) <==> k in Loose(req.args) || k in FixedData(req, now)
    ensures k in Loose(req.args) ==> Checked(req, now)[k] == Loose(req.args)[k]
    ensures k in FixedData(req, now) ==> Checked(req, now)[k] == FixedData(req, now)[k]
  {
    if k in FixedData(req, now) {
      FixedKeys(req, now, k);
      LooseIsUnreserved(req.args, k);
    }
  }

  lemma PostsText(data: Data, k: string, text: string)
    requires k in data && data[k] == Value.Text(text)
    ensures Posts(data, k + "=" + text)
  {
  }

  lemma FixedFieldsPost(req: Request, now: string)
    requires !req.trigger
    ensures var data := Checked(req, now);
      && Posts(data, "project" + "=" + req.project) && Posts(data, "spider" + "=" + req.spider)
      && Posts(data, "jobid" + "=" + SanitizeJobid(Or(req.jobid, now)))
      && (req.version != LATEST ==> Posts(data, "_version" + "=" + req.version))
  {
    var data := Checked(req, now);
    DataAt(req, now, "project");
    DataAt(req, now, "spider");
    DataAt(req, now, "jobid");
    DataAt(req, now, "_version");
    PostsText(data, "project", req.project);
    PostsText(data, "spider", req.spider);
    PostsText(data, "jobid", SanitizeJobid(Or(req.jobid, now)));
    if req.version != LATEST {
      PostsText(data, "_version", req.version);
    }
  }

  lemma FixedTexts(req: Request, now: string, k: string)
    requires k in FixedData(req, now)
    ensures var d := FixedData(req, now);
      || (k == "project" && d[k] == Value.Text(req.project)) || (k == "spider" && d[k] == Value.Text(req.spider))
      || (k == "jobid" && d[k] == Value.Text(SanitizeJobid(Or(req.jobid, now))))
      || (k == "_version" && req.version != LATEST && d[k] == Value.Text(req.version))
  {
  }

  lemma SettingMembers(settings: seq<Pair>, s: string)
    ensures s in Sorted(SettingTexts(settings)) <==> s in SettingTexts(settings)
  {
    assert s in multiset(Sorted(SettingTexts(settings))) <==> s in multiset(SettingTexts(settings));
  }

  // x is one of these fields.
  ghost predicate Among(x: string, project: string, version: string, spider: string, jobid: string,
                        settings: seq<string>, args: seq<Pair>)
  {
    || x == "project" + "=" + project || x == "spider" + "=" + spider || x == "jobid" + "=" + jobid
    || (version != LATEST && x == "_version" + "=" + version)
    || (exists s <- settings :: x == "setting=" + s)
    || exists p <- args :: x == p.key + "=" + p.value
  }

  // What the check page leaves to be posted for a form without a timer.
  lemma PostedFields(req: Request, now: string, x: string)
    requires !req.trigger && ArgsOk(req.args)
    ensures Posts(Checked(req, now), x) <==>
      Among(x, req.project, req.version, req.spider, SanitizeJobid(Or(req.jobid, now)), SettingTexts(req.settings),
            req.args)
  {
    var data := Checked(req, now);
    SettingAt(req, now);
    if Posts(data, x) {
      PostsIsAmong(req, now, x);
    }
    FixedFieldsPost(req, now);
    if s :| s in SettingTexts(req.settings) && x == "setting=" + s {
      SettingMembers(req.settings, s);
    }
    if p :| p in req.args && x == p.key + "=" + p.value {
      LooseIs(req.args);
      DataAt(req, now, p.key);
      PostsText(data, p.key, p.value);
    }
  }

  lemma PostsIsAmong(req: Request, now: string, x: string)
    requires !req.trigger && ArgsOk(req.args) && Posts(Checked(req, now), x)
    ensures Among(x, req.project, req.version, req.spider, SanitizeJobid(Or(req.jobid, now)),
                  SettingTexts(req.settings), req.args)
  {
    var data := Checked(req, now);
    SettingAt(req, now);
    if k :| k in data && data[k].Text? && x == k + "=" + data[k].text {
      DataAt(req, now, k);
      if k in Loose(req.args) {
        LooseIs(req.args);
      } else {
        FixedTexts(req, now, k);
      }
    } else {
      var s :| s in data["setting"].texts && x == "setting=" + s;
      SettingMembers(req.settings, s);
    }
  }

  // ---- the command shown for the form ----

  lemma {:induction false} PrefixedMembers(prefix: string, xs: seq<string>, x: string)
    ensures x in Prefixed(prefix, xs) <==> exists s <- xs :: x == prefix + s
  {
    if xs != [] {
      PrefixedMembers(prefix, xs[..|xs| - 1], x);
      assert xs == xs[..|xs| - 1] + [xs[|xs| - 1]];
    }
  }

  lemma {:induction false} FilledMembers(pairs: seq<Pair>, x: string)
    ensures x in Filled(pairs) <==> exists p <- pairs :: p.key != "" && p.value != "" && x == p.key + "=" + p.value
  {
    if pairs != [] {
      FilledMembers(pairs[..|pairs| - 1], x);
      assert pairs == pairs[..|pairs| - 1] + [pairs[|pairs| - 1]];
    }
  }

  lemma FixedMembers(v: Form, x: string)
    ensures x in CurlPreview.FixedFields(v) <==>
      || x == "project=" + Or(v.project, "?") || x == "spider=" + Or(v.spider, "?")
      || x == "jobid=" + (if v.jobid != "" then SanitizeJobid(v.jobid) else "<auto: timestamp>")
      || (v.version != "" && v.version != LATEST && x == "_version=" + v.version)
  {
  }

  lemma FieldNames(a: string, b: string, c: string, d: string)
    ensures "project" + "=" + a == "project=" + a && "spider" + "=" + b == "spider=" + b
    ensures "jobid" + "=" + c == "jobid=" + c && "_version" + "=" + d == "_version=" + d
  {
  }

  lemma {:induction false} TextsAreKeyVals(settings: seq<Pair>, s: string)
    requires SettingsOk(settings)
    ensures s in SettingTexts(settings) <==> s in Filled(settings)
  {
    TextsOfSettings(settings);
    FilledMembers(settings, s);
    if s in SettingTexts(settings) {
      var i :| 0 <= i < |settings| && SettingTexts(settings)[i] == s;
      assert settings[i] in settings;
    }
    if p :| p in settings && p.key != "" && p.value != "" && s == p.key + "=" + p.value {
      var i :| 0 <= i < |settings| && settings[i] == p;
      assert SettingTexts(settings)[i] == s;
    }
  }

  lemma SortedMembers(xs: seq<string>, s: string)
    ensures s in Sorted(xs) <==> s in xs
  {
    assert s in multiset(Sorted(xs)) <==> s in multiset(xs);
  }

  // The fields of the shown command, for a form with a project, a spider and a job id.
  lemma ShownFields(okSetting: Pair -> bool, v: Values, x: string)
    requires SchemaValid(okSetting, v) && v.run.jobid != ""
    ensures x in Payload(v.run) <==>
      Among(x, v.run.project, Or(v.run.version, LATEST), v.run.spider, SanitizeJobid(v.run.jobid),
            SettingTexts(v.run.settings), v.run.args)
  {
    var settings := Sorted(Filled(v.run.settings));
    ValidIsKept(okSetting, v);
    FixedMembers(v.run, x);
    FieldNames(v.run.project, v.run.spider, SanitizeJobid(v.run.jobid), v.run.version);
    PrefixedMembers("setting=", settings, x);
    FilledMembers(v.run.args, x);
    forall s ensures s in settings <==> s in SettingTexts(v.run.settings) {
      SortedMembers(Filled(v.run.settings), s);
      TextsAreKeyVals(v.run.settings, s);
    }
  }

  // The command that the browser shows sends exactly the fields that the check page leaves to
  // be posted to scrapyd for the same form.
  lemma PreviewIsThePost(okSetting: Pair -> bool, v: Values, now: string, x: string)
    requires SchemaValid(okSetting, v) && v.mode == Now && v.run.jobid != ""
    ensures x in Payload(v.run) <==> Posts(Checked(Posted(v), now), x)
  {
    ValidIsKept(okSetting, v);
    ShownFields(okSetting, v, x);
    PostedFields(Posted(v), now, x);
  }

  // The order of the fields: project, version unless it is the latest, spider and job id, then
  // the settings in order, then the arguments as given.
  lemma PayloadOrder(v: Form)
    ensures var p, latest := Payload(v), v.version == "" || v.version == "default: the latest version";
      var n, m := if latest then 3 else 4, |Filled(v.settings)|;
      && |p| == n + m + |Filled(v.args)|
      && p[0] == "project=" + (if v.project == "" then "?" else v.project)
      && (!latest ==> p[1] == "_version=" + v.version)
      && p[n - 2] == "spider=" + (if v.spider == "" then "?" else v.spider)
      && p[n - 1] == "jobid=" + (if v.jobid == "" then "<auto: timestamp>" else SanitizeJobid(v.jobid))
      && p[n..n + m] == Prefixed("setting=", Sorted(Filled(v.settings))) && p[n + m..] == Filled(v.args)
  {
    var xs := Sorted(Filled(v.settings));
    assert |xs| == |multiset(xs)| == |multiset(Filled(v.settings))|;
    PrefixedLength("setting=", xs);
    FixedOrder(v);
    ThreeParts(CurlPreview.FixedFields(v), Prefixed("setting=", xs), Filled(v.args));
  }

  lemma FixedOrder(v: Form)
    ensures var p, latest := CurlPreview.FixedFields(v), v.version == "" || v.version == "default: the latest version";
      var n := if latest then 3 else 4;
      && |p| == n
      && p[0] == "project=" + (if v.project == "" then "?" else v.project)
      && (!latest ==> p[1] == "_version=" + v.version)
      && p[n - 2] == "spider=" + (if v.spider == "" then "?" else v.spider)
      && p[n - 1] == "jobid=" + (if v.jobid == "" then "<auto: timestamp>" else SanitizeJobid(v.jobid))
  {
  }

  lemma ThreeParts<T>(a: seq<T>, b: seq<T>, c: seq<T>)
    ensures var s := a + b + c;
      && |s| == |a| + |b| + |c| && (forall i :: 0 <= i < |a| ==> s[i] == a[i])
      && s[|a|..|a| + |b|] == b && s[|a| + |b|..] == c
  {
  }

  lemma {:induction false} PrefixedLength(prefix: string, xs: seq<string>)
    ensures |Prefixed(prefix, xs)| == |xs|
    ensures forall i :: 0 <= i < |xs| ==> Prefixed(prefix, xs)[i] == prefix + xs[i]
  {
    if xs != [] {
      PrefixedLength(prefix, xs[..|xs| - 1]);
    }
  }

  predicate NeedsEncoding(kv: string) {
    (exists c <- kv :: IsJsSpace(c)) || '"' in kv || '\'' in kv
  }

  lemma FlagIs(kv: string)
    ensures Flag(kv) == if NeedsEncoding(kv) then "--data-urlencode" else "-d"
  {
  }

  lemma {:induction false} WordsLength(fields: seq<string>)
    ensures |Words(fields)| == 2 * |fields|
  {
    if fields != [] {
      WordsLength(fields[..|fields| - 1]);
    }
  }

  // Each field of the command stands behind its flag, which asks for encoding if the field
  // holds white space or a quote.
  lemma {:induction false} WordsAre(fields: seq<string>, i: nat)
    requires i < |fields|
    ensures |Words(fields)| == 2 * |fields| && Words(fields)[2 * i + 1] == fields[i]
    ensures Words(fields)[2 * i] == if NeedsEncoding(fields[i]) then "--data-urlencode" else "-d"
    decreases |fields|
  {
    WordsLength(fields);
    WordsLength(fields[..|fields| - 1]);
    FlagIs(fields[i]);
    if i < |fields| - 1 {
      WordsAre(fields[..|fields| - 1], i);
    }
  }
}
