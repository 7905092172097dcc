// The curl command shown beside the Run Spider form, and what a shell reads when it is pasted.
module CurlPreview {
  import opened Options
  import opened Sequences
  import opened ShellLexer
  import opened SortedTexts

  const LATEST := "default: the latest version"

  datatype Pair = Pair(key: string, value: string)

  datatype Form = Form(project: string, version: string, spider: string, jobid: string,
                       settings: seq<Pair>, args: seq<Pair>)

  // [A-Za-z0-9_\-.=:/@]
  predicate Safe(c: char) {
    'A' <= c <= 'Z' || 'a' <= c <= 'z' || '0' <= c <= '9' || c == '_' || c == '-' || c == '.' || c == '=' ||
    c == ':' || c == '/' || c == '@'
  }

  // s.replace(/'/g, "'\\''")
  function Escape(s: string): string {
    if s == "" then "" else (if s[0] == '\'' then "'\\''" else [s[0]]) + Escape(s[1..])
  }

  function ShellQuote(s: string): string {
    if exists c <- s :: !Safe(c) then "'" + Escape(s) + "'" else s
  }

  // Only letters, digits and _ - . = : / @ stay bare; anything else is put in single quotes, a
  // single quote itself outside of them.
  lemma QuotedIff(s: string)
    ensures (forall c <- s :: 'A' <= c <= 'Z' || 'a' <= c <= 'z' || '0' <= c <= '9' || c in "_-.=:/@") ==>
              ShellQuote(s) == s
    ensures !(forall c <- s :: 'A' <= c <= 'Z' || 'a' <= c <= 'z' || '0' <= c <= '9' || c in "_-.=:/@") ==>
              ShellQuote(s) == "'" + Escape(s) + "'"
    ensures '\'' !in s ==> Escape(s) == s
  {
    assert forall c ::
        c in "_-.=:/@" <==> c == '_' || c == '-' || c == '.' || c == '=' || c == ':' || c == '/' || c == '@';
    if '\'' !in s {
      EscapesQuotesOnly(s);
    }
  }

  lemma {:induction false} EscapesQuotesOnly(s: string)
    requires '\'' !in s
    ensures Escape(s) == s
  {
    if s != "" {
      EscapesQuotesOnly(s[1..]);
      assert s == [s[0]] + s[1..];
    }
  }

  // \s of ECMAScript.
  predicate IsJsSpace(c: char) {
    '\t' <= c <= '\r' || c == ' ' || c == '\U{A0}' || c == '\U{1680}' || '\U{2000}' <= c <= '\U{200A}' ||
    c == '\U{2028}' || c == '\U{2029}' || c == '\U{202F}' || c == '\U{205F}' || c == '\U{3000}' || c == '\U{FEFF}'
  }

  function Flag(kv: string): string {
    if exists c <- kv :: IsJsSpace(c) || c == '"' || c == '\'' then "--data-urlencode" else "-d"
  }

  predicate LegalInJobid(c: char) {
    '0' <= c <= '9' || 'A' <= c <= 'Z' || 'a' <= c <= 'z' || c == '_' || c == '-'
  }

  function SanitizeJobid(s: string): (r: string)
    ensures |r| == |s|
    ensures forall i :: 0 <= i < |s| ==>
              var kept := '0' <= s[i] <= '9' || 'A' <= s[i] <= 'Z' || 'a' <= s[i] <= 'z' || s[i] == '_' || s[i] == '-';
              r[i] == if kept then s[i] else '-'
  {
    if s == "" then "" else [if LegalInJobid(s[0]) then s[0] else '-'] + SanitizeJobid(s[1..])
  }

  function Filled(pairs: seq<Pair>): seq<string> {
    if pairs == [] then []
    else
      var front, last := Filled(pairs[..|pairs| - 1]), pairs[|pairs| - 1];
      if last.key != "" && last.value != "" then front + [last.key + "=" + last.value] else front
  }

  function Prefixed(prefix: string, xs: seq<string>): seq<string> {
    if xs == [] then [] else Prefixed(prefix, xs[..|xs| - 1]) + [prefix + xs[|xs| - 1]]
  }

  function Or(s: string, default: string): string {
    if s == "" then default else s
  }

  function FixedFields(v: Form): seq<string> {
    ["project=" + Or(v.project, "?")]
    + (if v.version != "" && v.version != LATEST then ["_version=" + v.version] else [])
    + ["spider=" + Or(v.spider, "?")]
    + ["jobid=" + if v.jobid != "" then SanitizeJobid(v.jobid) else "<auto: timestamp>"]
  }

  // The fields the command sends, in order.
  function Payload(v: Form): seq<string> {
    FixedFields(v) + Prefixed("setting=", Sorted(Filled(v.settings))) + Filled(v.args)
  }

  function Url(server: string): string { "http://" + server + "/schedule.json" }

  const CONTINUATION := " \\\n  "

  // The command line for the fields, one per continued line.
  function Command(server: string, fields: seq<string>): string {
    if fields == [] then "curl " + Url(server)
    else
      var kv := fields[|fields| - 1];
      Command(server, fields[..|fields| - 1]) + CONTINUATION + Flag(kv) + " " + ShellQuote(kv)
  }

  // Array.prototype.join
  function JoinParts(parts: seq<string>): string {
    if parts == [] then ""
    else if |parts| == 1 then parts[0]
    else JoinParts(parts[..|parts| - 1]) + CONTINUATION + parts[|parts| - 1]
  }

  function Part(kv: string): string { Flag(kv) + " " + ShellQuote(kv) }

  function Parts(server: string, fields: seq<string>): (r: seq<string>)
    ensures |r| == |fields| + 1
  {
    if fields == [] then ["curl " + Url(server)]
    else Parts(server, fields[..|fields| - 1]) + [Part(fields[|fields| - 1])]
  }

  lemma PartsSnoc(server: string, fields: seq<string>, kv: string)
    ensures Parts(server, fields + [kv]) == Parts(server, fields) + [Part(kv)]
  {
    assert (fields + [kv])[..|fields|] == fields;
  }

  lemma {:induction false} JoinIsCommand(server: string, fields: seq<string>)
    ensures JoinParts(Parts(server, fields)) == Command(server, fields)
  {
    if fields != [] {
      var p := Parts(server, fields[..|fields| - 1]);
      var kv := fields[|fields| - 1];
      JoinIsCommand(server, fields[..|fields| - 1]);
      assert (p + [Part(kv)])[..|p|] == p;
      assert Command(server, fields[..|fields| - 1]) + CONTINUATION + (Flag(kv) + " " + ShellQuote(kv)) ==
             Command(server, fields[..|fields| - 1]) + CONTINUATION + Flag(kv) + " " + ShellQuote(kv);
    }
  }

  // Pushes every field and joins the parts over continued lines.
  method BuildCurlPreview(v: Form, server: string) returns (text: string)
    ensures text == Command(server, Payload(v))
  {
    var parts := ["curl " + Url(server)];
    var fixed := ["project=" + Or(v.project, "?")];
    if v.version != "" && v.version != LATEST {
      fixed := fixed + ["_version=" + v.version];
    }
    fixed := fixed + ["spider=" + Or(v.spider, "?")];
    fixed := fixed + ["jobid=" + if v.jobid != "" then SanitizeJobid(v.jobid) else "<auto: timestamp>"];
    assert fixed == FixedFields(v);
    parts := PushAll(server, parts, [], fixed);
    assert [] + fixed == fixed;
    var settings := Prefixed("setting=", Sorted(Filled(v.settings)));
    parts := PushAll(server, parts, fixed, settings);
    parts := PushAll(server, parts, fixed + settings, Filled(v.args));
    JoinIsCommand(server, Payload(v));
    text := JoinParts(parts);
  }

  lemma OneMorePart(server: string, sent: seq<string>, kvs: seq<string>, i: nat)
    requires i < |kvs|
    ensures Parts(server, sent + kvs[..i + 1]) == Parts(server, sent + kvs[..i]) + [Part(kvs[i])]
  {
    Snoc(kvs, i);
    PartsSnoc(server, sent + kvs[..i], kvs[i]);
    assert sent + kvs[..i] + [kvs[i]] == sent + kvs[..i + 1];
  }

  method PushAll(server: string, parts: seq<string>, ghost sent: seq<string>, kvs: seq<string>)
    returns (out: seq<string>)
    requires parts == Parts(server, sent)
    ensures out == Parts(server, sent + kvs)
  {
    out := parts;
    assert sent + kvs[..0] == sent;
    for i := 0 to |kvs|
      invariant out == Parts(server, sent + kvs[..i])
    {
      OneMorePart(server, sent, kvs, i);
      out := out + [Flag(kvs[i]) + " " + ShellQuote(kvs[i])];
    }
    Whole(kvs);
  }

  // ---- what a shell makes of it ----

  function Words(fields: seq<string>): seq<string> {
    if fields == [] then []
    else Words(fields[..|fields| - 1]) + [Flag(fields[|fields| - 1]), fields[|fields| - 1]]
  }

  lemma SafeIsPlain(s: string)
    requires forall c <- s :: Safe(c)
    ensures PlainText(s)
  {
    forall i | 0 <= i < |s| ensures !Special(s[i]) {
      assert s[i] in s;
    }
  }

  lemma FlagIsPlain(kv: string)
    ensures PlainText(Flag(kv)) && Flag(kv) != ""
  {
  }

  lemma CloseAt(s: string, i: nat, p: nat)
    requires i <= p < |s| && s[p] == '\'' && forall j :: i <= j < p ==> s[j] != '\''
    ensures CloseQuote(s, i) == Some(p)
    decreases p - i
  {
    if i < p {
      CloseAt(s, i + 1, p);
    }
  }

  lemma {:induction false} EscapeAppend(a: string, b: string)
    ensures Escape(a + b) == Escape(a) + Escape(b)
  {
    if a == "" {
      assert a + b == b;
    } else {
      assert (a + b)[1..] == a[1..] + b;
      EscapeAppend(a[1..], b);
    }
  }

  lemma {:induction false} NothingToEscape(a: string)
    requires '\'' !in a
    ensures Escape(a) == a
  {
    if a != "" {
      NothingToEscape(a[1..]);
      assert a == [a[0]] + a[1..];
    }
  }

  // A quoted run without a quote in it.
  lemma LexQuotedRun(a: string, t: string, cur: Option<string>)
    requires '\'' !in a
    ensures Lex("'" + a + "'" + t, cur) == Lex(t, Some(Text(cur) + a))
  {
    var s := "'" + a + "'" + t;
    forall j | 1 <= j < |a| + 1 ensures s[j] != '\'' {
      assert s[j] == a[j - 1];
    }
    CloseAt(s, 1, |a| + 1);
    assert s[1..|a| + 1] == a && s[|a| + 2..] == t;
  }

  lemma EscapedSplit(a: string, b: string, t: string)
    ensures "'" + (a + ("'\\''" + Escape(b))) + "'" + t == "'" + a + "'" + ("\\'" + ("'" + Escape(b) + "'" + t))
  {
  }

  lemma LexEscapedQuote(rest: string, w: string)
    ensures Lex("\\'" + rest, Some(w)) == Lex(rest, Some(w + "'"))
  {
    assert ("\\'" + rest)[2..] == rest;
  }

  // Up to and including the first quote of the string.
  lemma LexUpToQuote(a: string, b: string, t: string, cur: Option<string>)
    requires '\'' !in a
    ensures Lex("'" + Escape(a + ("'" + b)) + "'" + t, cur) == Lex("'" + Escape(b) + "'" + t, Some(Text(cur) + a + "'"))
  {
    EscapeAppend(a, "'" + b);
    NothingToEscape(a);
    assert ("'" + b)[1..] == b;
    EscapedSplit(a, b, t);
    LexQuotedRun(a, "\\'" + ("'" + Escape(b) + "'" + t), cur);
    LexEscapedQuote("'" + Escape(b) + "'" + t, Text(cur) + a);
  }

  // Single-quoting an arbitrary string, with each quote written as '\'', is undone by the shell.
  lemma {:induction false} LexEscaped(s: string, t: string, cur: Option<string>)
    ensures Lex("'" + Escape(s) + "'" + t, cur) == Lex(t, Some(Text(cur) + s))
    decreases |s|
  {
    if '\'' !in s {
      NothingToEscape(s);
      LexQuotedRun(s, t, cur);
    } else {
      var q := FirstQuote(s);
      var a, b := s[..q], s[q + 1..];
      assert s == a + ("'" + b);
      LexUpToQuote(a, b, t, cur);
      LexEscaped(b, t, Some(Text(cur) + a + "'"));
      TextSplit(Text(cur), a, b);
    }
  }

  lemma TextSplit(x: string, a: string, b: string)
    ensures x + a + "'" + b == x + (a + ("'" + b))
  {
  }

  function FirstQuote(s: string): (q: nat)
    requires '\'' in s
    ensures q < |s| && s[q] == '\'' && '\'' !in s[..q]
  {
    if s[0] == '\'' then 0
    else
      assert s == [s[0]] + s[1..];
      var q := FirstQuote(s[1..]);
      assert s[..q + 1] == [s[0]] + s[1..][..q];
      q + 1
  }

  lemma LexShellQuote(s: string, t: string)
    requires s != ""
    ensures Lex(ShellQuote(s) + t, None) == Lex(t, Some(s))
  {
    if exists c <- s :: !Safe(c) {
      LexEscaped(s, t, None);
      assert "" + s == s;
    } else {
      SafeIsPlain(s);
      LexPlain(s, t, None);
      assert "" + s == s;
    }
  }

  lemma PartSplit(flag: string, quoted: string, t: string)
    ensures CONTINUATION + flag + " " + quoted + t == CONTINUATION + (flag + (" " + (quoted + t)))
  {
  }

  lemma LexFlag(flag: string, q: string, w: string)
    requires PlainText(flag) && flag != ""
    ensures Lex(CONTINUATION + (flag + (" " + q)), Some(w)) ==
            if Lex(q, None).None? then None else Some([w, flag] + Lex(q, None).value)
  {
    LexContinuation(flag + (" " + q), w);
    LexPlain(flag, " " + q, None);
    assert "" + flag == flag;
    LexBlank(q, flag);
    if Lex(q, None).Some? {
      assert [w] + ([flag] + Lex(q, None).value) == [w, flag] + Lex(q, None).value;
    }
  }

  // One more continued line adds its flag and its field.
  lemma LexPart(kv: string, t: string, w: string)
    requires kv != ""
    ensures Lex(CONTINUATION + Flag(kv) + " " + ShellQuote(kv) + t, Some(w)) ==
            if Lex(t, Some(kv)).None? then None else Some([w, Flag(kv)] + Lex(t, Some(kv)).value)
  {
    PartSplit(Flag(kv), ShellQuote(kv), t);
    FlagIsPlain(kv);
    LexFlag(Flag(kv), ShellQuote(kv) + t, w);
    LexShellQuote(kv, t);
  }

  function AllWords(server: string, fields: seq<string>): (r: seq<string>)
    ensures |r| >= 2
  {
    ["curl", Url(server)] + Words(fields)
  }

  // Two plain words with a blank between them.
  lemma LexTwoWords(a: string, b: string, t: string)
    requires PlainText(a) && PlainText(b) && a != "" && b != ""
    ensures Lex(a + " " + b + t, None) == if Lex(t, Some(b)).None? then None else Some([a] + Lex(t, Some(b)).value)
  {
    assert a + " " + b + t == a + (" " + (b + t));
    LexPlain(a, " " + (b + t), None);
    assert "" + a == a && "" + b == b;
    LexBlank(b + t, a);
    LexPlain(b, t, None);
  }

  lemma UrlIsPlain(server: string)
    requires PlainText(server)
    ensures PlainText(Url(server)) && Url(server) != ""
  {
    assert PlainText("http://") && PlainText("/schedule.json");
  }

  lemma LexHead(server: string, t: string)
    requires PlainText(server)
    ensures Lex("curl " + Url(server) + t, None) ==
            if Lex(t, Some(Url(server))).None? then None else Some(["curl"] + Lex(t, Some(Url(server))).value)
  {
    UrlIsPlain(server);
    assert "curl" + " " == "curl ";
    LexTwoWords("curl", Url(server), t);
  }

  // The words read when ws has been read but for the end of its last word, and t follows.
  function Finish(ws: seq<string>, t: string): Option<seq<string>>
    requires ws != []
  {
    var rest := Lex(t, Some(ws[|ws| - 1]));
    if rest.None? then None else Some(ws[..|ws| - 1] + rest.value)
  }

  lemma FinishAll(ws: seq<string>)
    requires ws != []
    ensures Finish(ws, "") == Some(ws)
  {
    assert ws[..|ws| - 1] + [ws[|ws| - 1]] == ws;
  }

  lemma FinishLine(ws: seq<string>, kv: string, t: string)
    requires ws != [] && kv != ""
    ensures Finish(ws, Line(kv, t)) == Finish(ws + [Flag(kv), kv], t)
  {
    LexPart(kv, t, ws[|ws| - 1]);
    var all := ws + [Flag(kv), kv];
    assert all[..|all| - 1] == ws[..|ws| - 1] + [ws[|ws| - 1], Flag(kv)];
    var rest := Lex(t, Some(kv));
    if rest.Some? {
      assert ws[..|ws| - 1] + ([ws[|ws| - 1], Flag(kv)] + rest.value) == all[..|all| - 1] + rest.value;
    }
  }

  lemma {:induction false} LexCommand(server: string, fields: seq<string>, t: string)
    requires PlainText(server) && forall kv <- fields :: kv != ""
    ensures Lex(Command(server, fields) + t, None) == Finish(AllWords(server, fields), t)
  {
    if fields == [] {
      LexHead(server, t);
      var ws := AllWords(server, fields);
      assert ws == ["curl", Url(server)] && ws[..1] == ["curl"];
    } else {
      var front, kv := fields[..|fields| - 1], fields[|fields| - 1];
      assert kv in fields && forall x <- front :: x in fields;
      CommandSplit(server, fields, t);
      LexCommand(server, front, Line(kv, t));
      FinishLine(AllWords(server, front), kv, t);
      WordsSplit(server, fields);
    }
  }

  function Line(kv: string, t: string): string {
    CONTINUATION + Flag(kv) + " " + ShellQuote(kv) + t
  }

  lemma CommandSplit(server: string, fields: seq<string>, t: string)
    requires fields != []
    ensures Command(server, fields) + t == Command(server, fields[..|fields| - 1]) + Line(fields[|fields| - 1], t)
  {
  }

  lemma WordsSplit(server: string, fields: seq<string>)
    requires fields != []
    ensures var kv := fields[|fields| - 1];
            AllWords(server, fields) == AllWords(server, fields[..|fields| - 1]) + [Flag(kv), kv]
  {
  }

  lemma {:induction false} PrefixedFilled(prefix: string, xs: seq<string>)
    requires prefix != ""
    ensures forall kv <- Prefixed(prefix, xs) :: kv != ""
  {
    if xs != [] {
      PrefixedFilled(prefix, xs[..|xs| - 1]);
    }
  }

  lemma {:induction false} FilledFields(pairs: seq<Pair>)
    ensures forall kv <- Filled(pairs) :: kv != ""
  {
    if pairs != [] {
      FilledFields(pairs[..|pairs| - 1]);
    }
  }

  lemma FixedAreNotEmpty(v: Form)
    ensures forall kv <- FixedFields(v) :: kv != ""
  {
  }

  lemma FieldsAreNotEmpty(v: Form)
    ensures forall kv <- Payload(v) :: kv != ""
  {
    PrefixedFilled("setting=", Sorted(Filled(v.settings)));
    FilledFields(v.args);
    FixedAreNotEmpty(v);
    forall kv <- Payload(v) ensures kv != "" {
      assert kv in FixedFields(v) || kv in Prefixed("setting=", Sorted(Filled(v.settings))) || kv in Filled(v.args);
    }
  }

  // Pasted into a POSIX shell, the preview is exactly curl, the URL, and a flag and the
  // literal field for every field of the form, whatever characters the values contain.
  lemma PreviewRoundTrips(v: Form, server: string)
    requires PlainText(server)
    ensures Lex(Command(server, Payload(v)), None) == Some(["curl", Url(server)] + Words(Payload(v)))
  {
    FieldsAreNotEmpty(v);
    var fields := Payload(v);
    var ws := AllWords(server, fields);
    LexCommand(server, fields, "");
    assert Command(server, fields) + "" == Command(server, fields);
    FinishAll(ws);
  }
}
