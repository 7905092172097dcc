// Re-submitting the rows the settings page shows must not change the configured servers.
module NoOpSave {
  import opened Options
  import opened Sequences
  import opened ServerDerivation
  import opened ServerPattern
  import opened ServerStrings
  import opened Texts

  // ---- the rows of the servers editor ----

  // str.partition(':')
  function Before(s: string): string { s[..Next(s, 0, {':'})] }

  function After(s: string): string {
    var c := Next(s, 0, {':'});
    if c == |s| then "" else s[c + 1..]
  }

  function ShownRow(server: string, group: string, auth: Auth, publicUrl: string): Option<ServerRow> {
    var port := if After(server) == "" then Some(6800) else ParseInt(Strip(After(server), Whitespace));
    if port.None? then None
    else
      Some(ServerRow(Before(server), PortNumber(port.value),
                     if auth.Some? then auth.value.0 else "",
                     if auth.Some? && auth.value.1 != "" then SECRET_SENTINEL else "",
                     group, publicUrl))
  }

  function NthOr<T>(xs: seq<T>, i: nat, default: T): T {
    if i < |xs| then xs[i] else default
  }

  // All rows, or None when some port is not an integer.
  function ShownRows(servers: seq<string>, groups: seq<string>, auths: seq<Auth>,
                     urls: seq<string>): Option<seq<ServerRow>> {
    if servers == [] then Some([])
    else
      var n := |servers| - 1;
      var front := ShownRows(servers[..n], groups, auths, urls);
      var row := ShownRow(servers[n], NthOr(groups, n, ""), NthOr(auths, n, None), NthOr(urls, n, ""));
      if front.Some? && row.Some? then Some(front.value + [row.value]) else None
  }

  method ServerRows(servers: seq<string>, groups: seq<string>, auths: seq<Auth>, urls: seq<string>)
    returns (rows: Option<seq<ServerRow>>)
    ensures rows == ShownRows(servers, groups, auths, urls)
  {
    var out := [];
    for idx := 0 to |servers|
      invariant ShownRows(servers[..idx], groups, auths, urls) == Some(out)
    {
      Snoc(servers, idx);
      var row := ShownRow(servers[idx], NthOr(groups, idx, ""), NthOr(auths, idx, None), NthOr(urls, idx, ""));
      if row.None? {
        OneBadRow(servers, groups, auths, urls, idx);
        return None;
      }
      out := out + [row.value];
    }
    Whole(servers);
    rows := Some(out);
  }

  lemma {:induction false} OneBadRow(servers: seq<string>, groups: seq<string>, auths: seq<Auth>, urls: seq<string>,
                                     i: nat)
    requires i < |servers|
    requires ShownRow(servers[i], NthOr(groups, i, ""), NthOr(auths, i, None), NthOr(urls, i, "")).None?
    ensures ShownRows(servers, groups, auths, urls).None?
  {
    if i < |servers| - 1 {
      OneBadRow(servers[..|servers| - 1], groups, auths, urls, i);
    }
  }

  lemma LastShown(servers: seq<string>, groups: seq<string>, auths: seq<Auth>, urls: seq<string>,
                  rows: seq<ServerRow>)
    requires ShownRows(servers, groups, auths, urls) == Some(rows) && servers != []
    ensures var n := |servers| - 1;
            && rows != [] && ShownRows(servers[..n], groups, auths, urls) == Some(rows[..|rows| - 1])
            && ShownRow(servers[n], NthOr(groups, n, ""), NthOr(auths, n, None), NthOr(urls, n, "")) ==
                 Some(rows[|rows| - 1])
  {
  }

  lemma {:induction false} ShownLength(servers: seq<string>, groups: seq<string>, auths: seq<Auth>, urls: seq<string>,
                                       rows: seq<ServerRow>)
    requires ShownRows(servers, groups, auths, urls) == Some(rows)
    ensures |rows| == |servers|
  {
    if servers != [] {
      LastShown(servers, groups, auths, urls, rows);
      ShownLength(servers[..|servers| - 1], groups, auths, urls, rows[..|rows| - 1]);
    }
  }

  lemma {:induction false} ShownRowAt(servers: seq<string>, groups: seq<string>, auths: seq<Auth>, urls: seq<string>,
                                      rows: seq<ServerRow>, i: nat)
    requires ShownRows(servers, groups, auths, urls) == Some(rows) && i < |servers| == |rows|
    ensures ShownRow(servers[i], NthOr(groups, i, ""), NthOr(auths, i, None), NthOr(urls, i, "")) == Some(rows[i])
  {
    LastShown(servers, groups, auths, urls, rows);
    if i < |servers| - 1 {
      ShownRowAt(servers[..|servers| - 1], groups, auths, urls, rows[..|rows| - 1], i);
    }
  }

  // The page shows no password: each row has the mask where its server has one, and nothing
  // where it has none; name, group and URL stand beside it as they are.
  lemma ShownHidesPasswords(servers: seq<string>, groups: seq<string>, auths: seq<Auth>, urls: seq<string>, i: nat)
    requires ShownRows(servers, groups, auths, urls).Some? && i < |servers|
    ensures var rows := ShownRows(servers, groups, auths, urls).value;
            && |rows| == |servers| && rows[i].ServerRow?
            && rows[i].password ==
                 (if i < |auths| && auths[i].Some? && auths[i].value.1 != "" then "__secret__" else "")
            && rows[i].username == (if i < |auths| && auths[i].Some? then auths[i].value.0 else "")
            && rows[i].group == (if i < |groups| then groups[i] else "")
            && rows[i].publicUrl == (if i < |urls| then urls[i] else "")
  {
    var rows := ShownRows(servers, groups, auths, urls).value;
    ShownLength(servers, groups, auths, urls, rows);
    ShownRowAt(servers, groups, auths, urls, rows, i);
  }

  // A server without a port is shown with the port 6800.
  lemma HostAloneIsShown(host: string, group: string, auth: Auth, url: string)
    requires ':' !in host
    ensures var row := ShownRow(host, group, auth, url);
            row.Some? && row.value.ServerRow? && row.value.host == host && row.value.port == PortNumber(6800)
  {
    NextAfterField(host, 0, host, {':'});
    assert host[..|host|] == host;
  }

  // ---- one entry there and back ----

  // What every derived entry satisfies.
  predicate Tidy(e: Entry) {
    && e.ip != "" && Trim(e.ip, Whitespace)
    && e.port != "" && Trim(e.port, Whitespace)
    && Trim(e.group, Whitespace)
    && Trim(e.publicUrl, SpaceOrSlash)
    && (e.auth.Some? ==> e.auth.value.0 != "" && e.auth.value.1 != "")
  }

  lemma DerivedIsTidy(parts: Parts, publicUrl: string)
    ensures Tidy(EntryOf(parts, publicUrl))
  {
    assert Trim("127.0.0.1", Whitespace) && Trim("6800", Whitespace);
  }

  function User(e: Entry): string { if e.auth.Some? then e.auth.value.0 else "" }

  function Pass(e: Entry): string { if e.auth.Some? then e.auth.value.1 else "" }

  function EntryText(e: Entry): string { Printed(User(e), Pass(e), e.ip, e.port, e.group) }

  // A canonical non-zero port, credentials without outer blanks, and fields free of the
  // delimiters and of line breaks.
  predicate DelimiterClean(e: Entry) {
    && ParseInt(e.port).Some? && ParseInt(e.port).value != 0 && IntText(ParseInt(e.port).value) == e.port
    && Trim(User(e), Whitespace) && Trim(Pass(e), Whitespace)
    && Delimited(User(e), Pass(e), e.ip, e.port, e.group)
    && OneLine(EntryText(e))
  }

  lemma PrintedIsTrim(e: Entry)
    requires Tidy(e) && Trim(User(e), Whitespace)
    ensures Trim(EntryText(e), Whitespace)
  {
    var s := EntryText(e);
    assert s[0] == if User(e) != "" && Pass(e) != "" then User(e)[0] else e.ip[0];
    assert s[|s| - 1] == if e.group != "" then e.group[|e.group| - 1] else e.port[|e.port| - 1];
  }

  lemma TextIsFound(e: Entry)
    requires Tidy(e) && DelimiterClean(e)
    ensures PartsOfSpec(Text(EntryText(e))) == Some(PartsOf(User(e), Pass(e), e.ip, e.port, e.group))
  {
    PrintedIsTrim(e);
    SearchPrinted(User(e), Pass(e), e.ip, e.port, e.group);
  }

  lemma PartsMakeEntry(e: Entry)
    requires Tidy(e)
    ensures EntryOf(PartsOf(User(e), Pass(e), e.ip, e.port, e.group), e.publicUrl) == e
  {
  }

  // Printing an entry and parsing it gives the entry back.
  lemma EntryRoundTrip(e: Entry)
    requires Tidy(e) && DelimiterClean(e)
    ensures EntryAt(Text(EntryText(e)), e.publicUrl) == Some(e)
  {
    TextIsFound(e);
    PartsMakeEntry(e);
  }

  lemma SplitHostPort(s: string, ip: string, port: string)
    requires s == ip + ":" + port && ':' !in ip
    ensures Before(s) == ip && After(s) == port
  {
    assert s[0..|ip|] == ip;
    NextAfterField(s, 0, ip, {':'});
  }

  // The row shown for an entry.
  lemma ShownIs(e: Entry)
    requires Tidy(e) && DelimiterClean(e)
    ensures ShownRow(e.ip + ":" + e.port, e.group, e.auth, e.publicUrl) ==
            Some(ServerRow(e.ip, PortNumber(ParseInt(e.port).value), User(e),
                           if Pass(e) != "" then SECRET_SENTINEL else "", e.group, e.publicUrl))
  {
    SplitHostPort(e.ip + ":" + e.port, e.ip, e.port);
  }

  lemma ShownPassword(e: Entry, row: ServerRow, servers: seq<string>, auths: seq<Auth>)
    requires Tidy(e) && row.ServerRow?
    requires Strip(row.host, Whitespace) + ":" + PortString(row.port) == e.ip + ":" + e.port
    requires row.password == if Pass(e) != "" then SECRET_SENTINEL else ""
    requires StoredAuth(servers, auths, e.ip + ":" + e.port) == e.auth
    ensures Password(row, servers, auths) == Pass(e)
  {
    assert Trim(SECRET_SENTINEL, Whitespace) && SECRET_SENTINEL != "";
  }

  // The row shown for an entry prints as the entry's text again: the stored password
  // replaces the sentinel.
  lemma ShownPrintsBack(e: Entry, servers: seq<string>, auths: seq<Auth>)
    requires Tidy(e) && DelimiterClean(e)
    requires StoredAuth(servers, auths, e.ip + ":" + e.port) == e.auth
    ensures var row := ShownRow(e.ip + ":" + e.port, e.group, e.auth, e.publicUrl);
            row.Some? && RowAccepted(row.value) && PrintedRow(row.value, servers, auths) == EntryText(e) &&
            PublicUrl(row.value) == e.publicUrl
  {
    ShownIs(e);
    var row := ShownRow(e.ip + ":" + e.port, e.group, e.auth, e.publicUrl).value;
    assert PortString(row.port) == e.port;
    ShownPassword(e, row, servers, auths);
  }

  // ---- the whole list ----

  function HostPort(e: Entry): string { e.ip + ":" + e.port }

  // The derived lists, as CheckScrapydServers stores them.
  function HostPorts(es: seq<Entry>): (r: seq<string>)
    ensures |r| == |es| && forall i :: 0 <= i < |es| ==> r[i] == HostPort(es[i])
  {
    seq(|es|, i requires 0 <= i < |es| => HostPort(es[i]))
  }

  function Groups(es: seq<Entry>): (r: seq<string>)
    ensures |r| == |es| && forall i :: 0 <= i < |es| ==> r[i] == es[i].group
  {
    seq(|es|, i requires 0 <= i < |es| => es[i].group)
  }

  function Auths(es: seq<Entry>): (r: seq<Auth>)
    ensures |r| == |es| && forall i :: 0 <= i < |es| ==> r[i] == es[i].auth
  {
    seq(|es|, i requires 0 <= i < |es| => es[i].auth)
  }

  function Urls(es: seq<Entry>): (r: seq<string>)
    ensures |r| == |es| && forall i :: 0 <= i < |es| ==> r[i] == es[i].publicUrl
  {
    seq(|es|, i requires 0 <= i < |es| => es[i].publicUrl)
  }

  function EntryTexts(es: seq<Entry>): (r: seq<string>)
    ensures |r| == |es| && forall i :: 0 <= i < |es| ==> r[i] == EntryText(es[i])
  {
    seq(|es|, i requires 0 <= i < |es| => EntryText(es[i]))
  }

  function Specs(texts: seq<string>): (r: seq<ServerSpec>)
    ensures |r| == |texts| && forall i :: 0 <= i < |texts| ==> r[i] == Text(texts[i])
  {
    seq(|texts|, i requires 0 <= i < |texts| => Text(texts[i]))
  }

  predicate Clean(es: seq<Entry>) {
    forall i :: 0 <= i < |es| ==> Tidy(es[i]) && DelimiterClean(es[i])
  }

  predicate DistinctHostPorts(es: seq<Entry>) {
    NoRepeats(HostPorts(es))
  }

  lemma {:induction false} StoredAuthAt(servers: seq<string>, auths: seq<Auth>, i: nat)
    requires i < |servers| <= |auths|
    requires forall j :: i < j < |servers| ==> servers[j] != servers[i]
    ensures StoredAuth(servers, auths, servers[i]) == auths[i]
    decreases |servers|
  {
    var n := |servers| - 1;
    if i < n {
      StoredAuthAt(servers[..n], auths, i);
    }
  }

  // These rows print as the first n entries.
  predicate PrintBack(es: seq<Entry>, n: nat, rows: seq<ServerRow>)
    requires n <= |es|
  {
    && |rows| == n && AllAccepted(rows)
    && PrintedRows(rows, HostPorts(es), Auths(es)) == EntryTexts(es)[..n]
    && PublicUrls(rows) == Urls(es)[..n]
  }

  lemma OneMoreRow(es: seq<Entry>, n: nat, front: seq<ServerRow>, row: ServerRow)
    requires n < |es| && PrintBack(es, n, front) && RowAccepted(row)
    requires PrintedRow(row, HostPorts(es), Auths(es)) == EntryText(es[n]) && PublicUrl(row) == es[n].publicUrl
    ensures PrintBack(es, n + 1, front + [row])
  {
    var rows := front + [row];
    assert rows[..|rows| - 1] == front;
    Snoc(EntryTexts(es), n);
    Snoc(Urls(es), n);
  }

  lemma OneMoreShown(servers: seq<string>, groups: seq<string>, auths: seq<Auth>, urls: seq<string>, n: nat,
                     front: seq<ServerRow>, row: ServerRow)
    requires n < |servers| == |groups| == |auths| == |urls|
    requires ShownRows(servers[..n], groups, auths, urls) == Some(front)
    requires ShownRow(servers[n], groups[n], auths[n], urls[n]) == Some(row)
    ensures ShownRows(servers[..n + 1], groups, auths, urls) == Some(front + [row])
  {
    assert servers[..n + 1][..n] == servers[..n];
  }

  lemma ShownBack(es: seq<Entry>, n: nat)
    requires n < |es| && Clean(es) && DistinctHostPorts(es)
    ensures var row := ShownRow(HostPorts(es)[n], Groups(es)[n], Auths(es)[n], Urls(es)[n]);
            row.Some? && RowAccepted(row.value) && PublicUrl(row.value) == es[n].publicUrl &&
            PrintedRow(row.value, HostPorts(es), Auths(es)) == EntryText(es[n])
  {
    StoredAuthAt(HostPorts(es), Auths(es), n);
    ShownPrintsBack(es[n], HostPorts(es), Auths(es));
  }

  // The rows shown for the first n entries, and that they print back.
  ghost predicate ShownAndPrinted(es: seq<Entry>, n: nat, rows: seq<ServerRow>) {
    && n <= |es| && PrintBack(es, n, rows)
    && ShownRows(HostPorts(es)[..n], Groups(es), Auths(es), Urls(es)) == Some(rows)
  }

  lemma NoneShown(es: seq<Entry>)
    ensures ShownAndPrinted(es, 0, [])
  {
  }

  lemma OneMoreBack(es: seq<Entry>, n: nat, front: seq<ServerRow>) returns (rows: seq<ServerRow>)
    requires n < |es| && Clean(es) && DistinctHostPorts(es) && ShownAndPrinted(es, n, front)
    ensures ShownAndPrinted(es, n + 1, rows)
  {
    ShownBack(es, n);
    var row := ShownRow(HostPorts(es)[n], Groups(es)[n], Auths(es)[n], Urls(es)[n]).value;
    OneMoreShown(HostPorts(es), Groups(es), Auths(es), Urls(es), n, front, row);
    OneMoreRow(es, n, front, row);
    rows := front + [row];
  }

  lemma {:induction false} RowsPrintBack(es: seq<Entry>, n: nat) returns (rows: seq<ServerRow>)
    requires n <= |es| && Clean(es) && DistinctHostPorts(es)
    ensures ShownAndPrinted(es, n, rows)
  {
    if n == 0 {
      rows := [];
      NoneShown(es);
    } else {
      rows := RowsPrintBack(es, n - 1);
      rows := OneMoreBack(es, n - 1, rows);
    }
  }

  lemma SomesOf(es: seq<Entry>, parsed: seq<Option<Entry>>)
    requires |parsed| == |es| && forall i :: 0 <= i < |es| ==> parsed[i] == Some(es[i])
    ensures AllSome(parsed) && Somes(parsed) == Elements(es)
  {
    forall e ensures e in Somes(parsed) <==> e in Elements(es) {
      if e in Elements(es) {
        var i :| 0 <= i < |es| && es[i] == e;
        assert parsed[i] == Some(e);
      }
    }
  }

  lemma ParsesBack(es: seq<Entry>)
    requires Clean(es)
    ensures Derivable(Specs(EntryTexts(es)), Urls(es)) && EntrySet(Specs(EntryTexts(es)), Urls(es)) == Elements(es)
  {
    var parsed := Parsed(Specs(EntryTexts(es)), Urls(es));
    forall i | 0 <= i < |es| ensures parsed[i] == Some(es[i]) {
      EntryRoundTrip(es[i]);
    }
    SomesOf(es, parsed);
    forall e <- Elements(es) ensures ParseInt(e.port).Some? {
      var i :| 0 <= i < |es| && es[i] == e;
      assert DelimiterClean(es[i]);
    }
  }

  // Saving the rows as shown derives the same servers, groups, credentials and public URLs.
  lemma NoOpSaveIsIdentity(es: seq<Entry>, again: seq<Entry>)
    requires IsSortOf(es, Elements(es)) && DistinctSortKeys(Elements(es))
    requires Clean(es) && DistinctHostPorts(es)
    ensures var rows := ShownRows(HostPorts(es), Groups(es), Auths(es), Urls(es));
            && rows.Some? && AllAccepted(rows.value)
            && var texts := PrintedRows(rows.value, HostPorts(es), Auths(es));
               var specs := Specs(texts);
               && Derivable(specs, PublicUrls(rows.value))
               && (IsSortOf(again, EntrySet(specs, PublicUrls(rows.value))) ==> again == es)
  {
    Whole(HostPorts(es));
    Whole(Urls(es));
    var _ := RowsPrintBack(es, |es|);
    Whole(EntryTexts(es));
    ParsesBack(es);
    if IsSortOf(again, Elements(es)) {
      SortIsUnique(again, es, Elements(es));
    }
  }
}
