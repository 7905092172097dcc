// Structured server rows of the settings page and the strings they are stored as.
module ServerStrings {
  import opened Options
  import opened Sequences
  import opened ServerPattern
  import opened Texts

  const SECRET_SENTINEL := "__secret__"

  datatype Result<+T> = Ok(value: T) | Error(message: string)

  type Auth = Option<(string, string)>

  // The port cell of a submitted row.
  datatype PortCell = NoPort | PortNumber(n: int) | PortText(text: string)

  // One submitted row; cells that are absent or null are "", except that str() reads a null
  // host as "None".
  datatype ServerRow =
    | NotAnObject
    | ServerRow(host: string, port: PortCell, username: string, password: string, group: string, publicUrl: string)

  // str(row.get('port') or 6800).strip()
  function PortString(p: PortCell): string {
    match p
    case NoPort => "6800"
    case PortNumber(n) => if n == 0 then "6800" else IntText(n)
    case PortText(t) => if t == "" then "6800" else Strip(t, Whitespace)
  }

  // The credentials the current settings hold for host:port; the last entry wins.
  function StoredAuth(servers: seq<string>, auths: seq<Auth>, hostPort: string): Auth {
    if servers == [] then None
    else
      var n := |servers| - 1;
      if servers[n] == hostPort then (if n < |auths| then auths[n] else None)
      else StoredAuth(servers[..n], auths, hostPort)
  }

  // The submitted password, or the stored one when the sentinel came back.
  function Password(row: ServerRow, servers: seq<string>, auths: seq<Auth>): string
    requires row.ServerRow?
  {
    var typed := Strip(row.password, Whitespace);
    if typed != SECRET_SENTINEL then typed
    else
      match StoredAuth(servers, auths, Strip(row.host, Whitespace) + ":" + PortString(row.port))
      case Some(auth) => auth.1
      case None => ""
  }

  // user:pass@host:port#group
  function Printed(user: string, pass: string, host: string, port: string, group: string): string {
    (if user != "" && pass != "" then user + ":" + pass + "@" else "") + host + ":" + port +
    GroupText(group)
  }

  function GroupText(group: string): string {
    if group != "" then "#" + group else ""
  }

  function PublicUrl(row: ServerRow): string {
    if row.NotAnObject? then "" else Strip(row.publicUrl, SpaceOrSlash)
  }

  function PrintedRow(row: ServerRow, servers: seq<string>, auths: seq<Auth>): string {
    if row.NotAnObject? then "" else
    Printed(Strip(row.username, Whitespace), Password(row, servers, auths), Strip(row.host, Whitespace),
            PortString(row.port), Strip(row.group, Whitespace))
  }

  predicate RowAccepted(row: ServerRow) {
    row.ServerRow? && Strip(row.host, Whitespace) != ""
  }

  // Looking up the table gives the credentials held for each host:port.
  ghost predicate HoldsAuths(curAuths: map<string, Auth>, servers: seq<string>, auths: seq<Auth>) {
    forall k :: (if k in curAuths then curAuths[k] else None) == StoredAuth(servers, auths, k)
  }

  // The password that is printed: the sentinel stands for the stored one.
  method ResolvePassword(row: ServerRow, hostPort: string, curAuths: map<string, Auth>, ghost servers: seq<string>,
                         ghost auths: seq<Auth>) returns (password: string)
    requires row.ServerRow? && hostPort == Strip(row.host, Whitespace) + ":" + PortString(row.port)
    requires HoldsAuths(curAuths, servers, auths)
    ensures password == Password(row, servers, auths)
  {
    password := Strip(row.password, Whitespace);
    if password == SECRET_SENTINEL {
      var kept := if hostPort in curAuths then curAuths[hostPort] else None;
      assert kept == StoredAuth(servers, auths, hostPort);
      password := if kept.Some? then kept.value.1 else "";
    }
  }

  // One row's string, built piece by piece.
  method SerializeRow(row: ServerRow, curAuths: map<string, Auth>, ghost servers: seq<string>, ghost auths: seq<Auth>)
    returns (s: string)
    requires row.ServerRow? && HoldsAuths(curAuths, servers, auths)
    ensures s == PrintedRow(row, servers, auths)
  {
    var host, port := Strip(row.host, Whitespace), PortString(row.port);
    var username, group := Strip(row.username, Whitespace), Strip(row.group, Whitespace);
    var password := ResolvePassword(row, host + ":" + port, curAuths, servers, auths);
    s := Assemble(username, password, host, port, group);
  }

  method Assemble(user: string, pass: string, host: string, port: string, group: string) returns (s: string)
    ensures s == Printed(user, pass, host, port, group)
  {
    PrintedPieces(user, pass, host, port, group);
    s := host + ":" + port;
    if user != "" && pass != "" {
      s := user + ":" + pass + "@" + s;
    }
    if group != "" {
      s := s + "#" + group;
    }
  }

  lemma PrintedPieces(user: string, pass: string, host: string, port: string, group: string)
    ensures var s := if user != "" && pass != "" then user + ":" + pass + "@" + (host + ":" + port)
                     else host + ":" + port;
            Printed(user, pass, host, port, group) == if group != "" then s + "#" + group else s
  {
    var s := if user != "" && pass != "" then user + ":" + pass + "@" + (host + ":" + port) else host + ":" + port;
    if user != "" && pass != "" {
      var auth := user + ":" + pass + "@";
      assert auth + host + ":" + port == auth + (host + ":" + port);
    } else {
      assert "" + host == host;
    }
    if group != "" {
      assert s + "#" + group == s + ("#" + group);
    } else {
      assert s + "" == s;
    }
  }

  // The strings and public URLs of the rows, in order.
  function PrintedRows(rows: seq<ServerRow>, servers: seq<string>, auths: seq<Auth>): (r: seq<string>)
    ensures |r| == |rows|
    ensures forall i :: 0 <= i < |rows| ==> r[i] == PrintedRow(rows[i], servers, auths)
  {
    if rows == [] then []
    else PrintedRows(rows[..|rows| - 1], servers, auths) + [PrintedRow(rows[|rows| - 1], servers, auths)]
  }

  function PublicUrls(rows: seq<ServerRow>): (r: seq<string>)
    ensures |r| == |rows|
    ensures forall i :: 0 <= i < |rows| ==> r[i] == PublicUrl(rows[i])
  {
    if rows == [] then [] else PublicUrls(rows[..|rows| - 1]) + [PublicUrl(rows[|rows| - 1])]
  }

  // The lookup table the sentinel is resolved against.
  method CurrentAuths(servers: seq<string>, auths: seq<Auth>) returns (curAuths: map<string, Auth>)
    ensures HoldsAuths(curAuths, servers, auths)
  {
    curAuths := map[];
    for idx := 0 to |servers|
      invariant forall k :: k in curAuths <==> k in servers[..idx]
      invariant forall k :: k in curAuths ==> curAuths[k] == StoredAuth(servers[..idx], auths, k)
    {
      assert servers[..idx + 1] == servers[..idx] + [servers[idx]];
      curAuths := curAuths[servers[idx] := if idx < |auths| then auths[idx] else None];
    }
    assert servers[..|servers|] == servers;
    forall k ensures (if k in curAuths then curAuths[k] else None) == StoredAuth(servers, auths, k) {
      AbsentAuth(servers, auths, k);
    }
  }

  predicate AllAccepted(rows: seq<ServerRow>) {
    rows == [] || (AllAccepted(rows[..|rows| - 1]) && RowAccepted(rows[|rows| - 1]))
  }

  lemma {:induction false} RejectedAt(rows: seq<ServerRow>, i: nat)
    requires i < |rows| && !RowAccepted(rows[i])
    ensures !AllAccepted(rows)
  {
    if i < |rows| - 1 {
      RejectedAt(rows[..|rows| - 1], i);
    }
  }

  // Every row must be an object with a host, and there must be a row; then the strings
  // and the public URLs are the rows' own, in order.
  method SerializeServerRows(rows: seq<ServerRow>, servers: seq<string>, auths: seq<Auth>)
    returns (r: Result<(seq<string>, seq<string>)>)
    ensures r.Ok? <==> rows != [] && AllAccepted(rows)
    ensures r.Ok? ==> r.value == (PrintedRows(rows, servers, auths), PublicUrls(rows))
  {
    var curAuths := CurrentAuths(servers, auths);
    var strings, publics := [], [];
    for i := 0 to |rows|
      invariant AllAccepted(rows[..i])
      invariant strings == PrintedRows(rows[..i], servers, auths) && publics == PublicUrls(rows[..i])
    {
      var row := rows[i];
      Snoc(rows, i);
      if !RowAccepted(row) {
        RejectedAt(rows, i);
      }
      if row.NotAnObject? {
        return Error("each server must be an object");
      }
      if Strip(row.host, Whitespace) == "" {
        return Error("server host is required");
      }
      var s := SerializeRow(row, curAuths, servers, auths);
      strings := strings + [s];
      publics := publics + [PublicUrl(row)];
    }
    if strings == [] {
      return Error("at least one scrapyd server is required");
    }
    Whole(rows);
    r := Ok((strings, publics));
  }

  lemma {:induction false} AbsentAuth(servers: seq<string>, auths: seq<Auth>, hostPort: string)
    ensures hostPort !in servers ==> StoredAuth(servers, auths, hostPort) == None
  {
    if servers != [] {
      AbsentAuth(servers[..|servers| - 1], auths, hostPort);
    }
  }

  // Of several entries for one server the last one's credentials count.
  lemma {:induction false} LastAuthWins(servers: seq<string>, auths: seq<Auth>, i: nat)
    requires i < |servers| && forall j :: i < j < |servers| ==> servers[j] != servers[i]
    ensures StoredAuth(servers, auths, servers[i]) == if i < |auths| then auths[i] else None
  {
    if i < |servers| - 1 {
      LastAuthWins(servers[..|servers| - 1], auths, i);
    }
  }

  lemma {:induction false} AcceptedAt(rows: seq<ServerRow>, i: nat)
    requires AllAccepted(rows) && i < |rows|
    ensures RowAccepted(rows[i])
  {
    if i < |rows| - 1 {
      AcceptedAt(rows[..|rows| - 1], i);
    }
  }

  lemma {:induction false} SomeRejected(rows: seq<ServerRow>) returns (i: nat)
    requires !AllAccepted(rows)
    ensures i < |rows| && !RowAccepted(rows[i])
  {
    i := |rows| - 1;
    if RowAccepted(rows[i]) {
      i := SomeRejected(rows[..i]);
    }
  }

  // Rows are refused exactly when one is no object or has a blank host.
  lemma AcceptedIff(rows: seq<ServerRow>)
    ensures AllAccepted(rows) <==>
            forall i :: 0 <= i < |rows| ==> rows[i].ServerRow? && Strip(rows[i].host, Whitespace) != ""
  {
    if AllAccepted(rows) {
      forall i | 0 <= i < |rows| ensures rows[i].ServerRow? && Strip(rows[i].host, Whitespace) != "" {
        AcceptedAt(rows, i);
      }
    } else {
      var i := SomeRejected(rows);
      assert !RowAccepted(rows[i]);
    }
  }

  // A row with a host alone is printed with the port 6800, whether its port is missing, empty
  // or 0; a name without a password, or a password without a name, is dropped.
  lemma HostAloneIsPrinted(host: string, port: PortCell, user: string, pass: string, servers: seq<string>,
                           auths: seq<Auth>)
    requires Trim(host, Whitespace) && port in {NoPort, PortNumber(0), PortText("")}
    requires Strip(user, Whitespace) == "" || Strip(pass, Whitespace) == ""
    ensures PrintedRow(ServerRow(host, port, user, pass, "", ""), servers, auths) == host + ":6800"
  {
    assert PortString(port) == "6800" && Strip("", Whitespace) == "";
    assert Strip(pass, Whitespace) == "" ==> Strip(pass, Whitespace) != SECRET_SENTINEL;
    BarePrinted(Strip(user, Whitespace), Password(ServerRow(host, port, user, pass, "", ""), servers, auths), host);
  }

  lemma BarePrinted(user: string, pass: string, host: string)
    requires user == "" || pass == ""
    ensures Printed(user, pass, host, "6800", "") == host + ":6800"
  {
    assert "" + host + ":" + "6800" + "" == host + ":6800";
  }

  // ---- parsing what was printed ----

  predicate FreeOf(f: string, stops: set<char>) {
    forall c <- f :: c !in stops
  }

  // The fields contain none of the delimiters that would end them early.
  predicate Delimited(user: string, pass: string, host: string, port: string, group: string) {
    && FreeOf(host, {':', '#'}) && FreeOf(port, {'#'})
    && (if user != "" && pass != "" then FreeOf(user, {':'}) && FreeOf(pass, {'@'})
        else FreeOf(port, {'@'}) && FreeOf(group, {'@'}))
  }

  function PartsOf(user: string, pass: string, host: string, port: string, group: string): Parts {
    var auth := user != "" && pass != "";
    Parts(if auth then Some(user) else None, if auth then Some(pass) else None, host, Some(port), OrNone(group))
  }

  // A field f that starts at i and is followed by a stop, or by the end, is read whole
  // exactly when it holds no stop itself.
  lemma NextAfterField(s: string, i: nat, f: string, stops: set<char>)
    requires i + |f| <= |s| && s[i..i + |f|] == f
    requires i + |f| < |s| ==> s[i + |f|] in stops
    ensures Next(s, i, stops) <= i + |f|
    ensures Next(s, i, stops) == i + |f| <==> FreeOf(f, stops)
  {
    var p, e := Next(s, i, stops), i + |f|;
    forall q | i <= q < e ensures s[q] == f[q - i] {
      assert s[i..e][q - i] == s[q];
    }
    if p < e {
      assert f[p - i] in f;
    } else {
      forall c <- f ensures c !in stops {
        var q :| 0 <= q < |f| && f[q] == c;
        assert s[i + q] == f[q];
      }
    }
  }

  // The text of s from i on is host:port[#group].
  predicate HostAt(s: string, i: nat, host: string, port: string, group: string) {
    var h := i + |host|;
    var e := h + 1 + |port|;
    && h < |s| && s[i..h] == host && s[h] == ':'
    && e <= |s| && s[h + 1..e] == port
    && (if group == "" then e == |s| else e < |s| && s[e] == '#' && s[e + 1..] == group)
  }

  lemma PortRoundTrip(s: string, i: nat, port: string, group: string)
    requires i + |port| <= |s| && s[i..i + |port|] == port
    requires if group == "" then i + |port| == |s|
             else i + |port| < |s| && s[i + |port|] == '#' && s[i + |port| + 1..] == group
    ensures var p := Next(s, i, {'#'});
            (s[i..p] == port && (if p == |s| then None else Some(s[p + 1..])) == OrNone(group)) <==> FreeOf(port, {'#'})
  {
    NextAfterField(s, i, port, {'#'});
    var p := Next(s, i, {'#'});
    if p < i + |port| {
      assert |s[i..p]| < |port|;
    }
  }

  lemma HostCutShort(s: string, i: nat, host: string, port: string, group: string, u: Option<string>, p: Option<string>)
    requires HostAt(s, i, host, port, group) && Next(s, i, {':', '#'}) < i + |host|
    ensures ScanHost(s, i, u, p).ip != host
  {
    assert |s[i..Next(s, i, {':', '#'})]| < |host|;
  }

  lemma HostWhole(s: string, i: nat, host: string, port: string, group: string, u: Option<string>, p: Option<string>)
    requires HostAt(s, i, host, port, group) && Next(s, i, {':', '#'}) == i + |host|
    ensures ScanHost(s, i, u, p) == Parts(u, p, host, Some(port), OrNone(group)) <==> FreeOf(port, {'#'})
  {
    PortRoundTrip(s, i + |host| + 1, port, group);
  }

  lemma HostRoundTrip(s: string, i: nat, host: string, port: string, group: string, u: Option<string>,
                      p: Option<string>)
    requires HostAt(s, i, host, port, group)
    ensures ScanHost(s, i, u, p) == Parts(u, p, host, Some(port), OrNone(group)) <==>
            FreeOf(host, {':', '#'}) && FreeOf(port, {'#'})
  {
    NextAfterField(s, i, host, {':', '#'});
    if Next(s, i, {':', '#'}) < i + |host| {
      HostCutShort(s, i, host, port, group, u, p);
    } else {
      HostWhole(s, i, host, port, group, u, p);
    }
  }

  // ... and user:pass@ stands before i.
  predicate AuthAt(s: string, i: nat, user: string, pass: string) {
    && i == |user| + |pass| + 2 && i <= |s|
    && s[0..|user|] == user && s[|user|] == ':'
    && s[|user| + 1..i - 1] == pass && s[i - 1] == '@'
  }

  lemma ScanWithAuth(s: string, i: nat, user: string, pass: string)
    requires AuthAt(s, i, user, pass) && Next(s, 0, {':'}) == |user| && Next(s, |user| + 1, {'@'}) == i - 1
    ensures Scan(s) == ScanHost(s, i, Some(user), Some(pass))
  {
  }

  lemma PassCutShort(s: string, i: nat, user: string, pass: string)
    requires AuthAt(s, i, user, pass) && Next(s, 0, {':'}) == |user| && Next(s, |user| + 1, {'@'}) < i - 1
    ensures Scan(s).pass != Some(pass)
  {
    var a := Next(s, |user| + 1, {'@'});
    assert |s[|user| + 1..a]| < |pass|;
    assert Scan(s) == ScanHost(s, a + 1, Some(s[0..|user|]), Some(s[|user| + 1..a]));
  }

  lemma AuthRoundTrip(s: string, i: nat, user: string, pass: string, host: string, port: string, group: string)
    requires AuthAt(s, i, user, pass) && HostAt(s, i, host, port, group)
    ensures Scan(s) == Parts(Some(user), Some(pass), host, Some(port), OrNone(group)) <==>
            FreeOf(user, {':'}) && FreeOf(pass, {'@'}) && FreeOf(host, {':', '#'}) && FreeOf(port, {'#'})
  {
    NextAfterField(s, 0, user, {':'});
    var c := Next(s, 0, {':'});
    if c == |user| {
      NextAfterField(s, c + 1, pass, {'@'});
      var a := Next(s, c + 1, {'@'});
      if a == i - 1 {
        HostRoundTrip(s, i, host, port, group, Some(user), Some(pass));
        ScanWithAuth(s, i, user, pass);
      } else {
        PassCutShort(s, i, user, pass);
      }
    } else {
      assert |s[0..c]| < |user|;
      assert Scan(s).user != Some(user);
    }
  }

  // Without credentials the whole string is the host part.
  lemma BareScan(s: string)
    ensures var c := Next(s, 0, {':'});
            if c < |s| && Next(s, c + 1, {'@'}) < |s| then Scan(s).user.Some?
            else Scan(s) == ScanHost(s, 0, None, None)
  {
  }

  lemma BareRoundTrip(s: string, host: string, port: string, group: string)
    requires HostAt(s, 0, host, port, group)
    ensures Scan(s) == Parts(None, None, host, Some(port), OrNone(group)) <==>
            FreeOf(host, {':', '#'}) && FreeOf(port, {'#'}) && FreeOf(s[|host| + 1..], {'@'})
  {
    HostRoundTrip(s, 0, host, port, group, None, None);
    BareScan(s);
    if FreeOf(host, {':', '#'}) {
      NextAfterField(s, 0, host, {':'});
      NextAfterField(s, |host| + 1, s[|host| + 1..], {'@'});
    }
  }

  // Scanning the printed string returns the row exactly when its fields are free of delimiters.
  lemma ScanPrinted(user: string, pass: string, host: string, port: string, group: string)
    ensures Scan(Printed(user, pass, host, port, group)) == PartsOf(user, pass, host, port, group) <==>
            Delimited(user, pass, host, port, group)
  {
    if user != "" && pass != "" {
      ScanPrintedAuth(user, pass, host, port, group);
    } else {
      assert Printed(user, pass, host, port, group) == host + ":" + port + GroupText(group);
      ScanPrintedBare(host, port, group);
    }
  }

  lemma SliceOf(s: string, a: string, b: string, c: string)
    requires s == a + b + c
    ensures s[|a|..|a| + |b|] == b && s[|a| + |b|..] == c
  {
  }

  // The text after the host: port[#group].
  lemma PortAt(t: string, port: string, group: string)
    requires t == port + GroupText(group)
    ensures |port| <= |t| && t[..|port|] == port
    ensures if group == "" then |port| == |t| else |port| < |t| && t[|port|] == '#' && t[|port| + 1..] == group
  {
    if group != "" {
      assert t[|port|..] == "#" + group;
      assert t[|port| + 1..] == ("#" + group)[1..];
    }
  }

  lemma HostSlices(s: string, pre: string, host: string, t: string)
    requires s == pre + host + (":" + t)
    ensures |pre| + |host| < |s| && s[|pre|..|pre| + |host|] == host && s[|pre| + |host|] == ':'
    ensures s[|pre| + |host| + 1..] == t
  {
    SliceOf(s, pre, host, ":" + t);
    assert s[|pre| + |host| + 1..] == (":" + t)[1..];
  }

  lemma AppendToRight(a: string, b: string, c: string, d: string)
    ensures a + b + c + d == a + (b + (c + d))
  {
  }

  lemma PrintedHostAt(s: string, pre: string, host: string, port: string, group: string)
    requires s == pre + host + ":" + port + GroupText(group)
    ensures HostAt(s, |pre|, host, port, group)
  {
    var t := port + GroupText(group);
    AppendToRight(pre + host, ":", port, GroupText(group));
    PortAt(t, port, group);
    HostSlices(s, pre, host, t);
    HostAtOf(s, |pre|, t, host, port, group);
  }

  lemma HostAtOf(s: string, i: nat, t: string, host: string, port: string, group: string)
    requires i + |host| < |s| && s[i..i + |host|] == host && s[i + |host|] == ':' && s[i + |host| + 1..] == t
    requires |port| <= |t| && t[..|port|] == port
    requires if group == "" then |port| == |t| else |port| < |t| && t[|port|] == '#' && t[|port| + 1..] == group
    ensures HostAt(s, i, host, port, group)
  {
    var h := i + |host| + 1;
    assert t[..|port|] == s[h..h + |port|];
    assert group != "" ==> t[|port| + 1..] == s[h + |port| + 1..];
  }

  // The text before the host: user:pass@.
  lemma PrintedAuthAt(s: string, pre: string, user: string, pass: string, rest: string)
    requires pre == user + ":" + pass + "@" && s == pre + rest
    ensures AuthAt(s, |pre|, user, pass)
  {
    assert s == user + ":" + (pass + "@" + rest);
    SliceOf(s, "", user, ":" + (pass + "@" + rest));
    assert s == (user + ":") + pass + ("@" + rest);
    SliceOf(s, user + ":", pass, "@" + rest);
  }

  lemma PrefixLast(pre: string, a: string, b: string, c: string, d: string)
    ensures pre + a + b + c + d == pre + (a + b + c + d)
  {
  }

  lemma ScanPrintedAuth(user: string, pass: string, host: string, port: string, group: string)
    requires user != "" && pass != ""
    ensures Scan(Printed(user, pass, host, port, group)) == PartsOf(user, pass, host, port, group) <==>
            Delimited(user, pass, host, port, group)
  {
    var pre := user + ":" + pass + "@";
    var s := Printed(user, pass, host, port, group);
    PrintedHostAt(s, pre, host, port, group);
    PrefixLast(pre, host, ":", port, GroupText(group));
    PrintedAuthAt(s, pre, user, pass, host + ":" + port + GroupText(group));
    AuthRoundTrip(s, |pre|, user, pass, host, port, group);
  }

  lemma ScanPrintedBare(host: string, port: string, group: string)
    ensures Scan(host + ":" + port + GroupText(group)) == Parts(None, None, host, Some(port), OrNone(group)) <==>
            Delimited("", "", host, port, group)
  {
    var s := host + ":" + port + GroupText(group);
    BareHostAt(s, "", host, port, group);
    BareRoundTrip(s, host, port, group);
    AfterHost(host, port, group);
  }

  lemma BareHostAt(s: string, pre: string, host: string, port: string, group: string)
    requires s == host + ":" + port + GroupText(group) && pre == ""
    ensures HostAt(s, 0, host, port, group)
  {
    assert pre + host == host;
    PrintedHostAt(s, pre, host, port, group);
  }

  lemma AfterHost(host: string, port: string, group: string)
    ensures FreeOf((host + ":" + port + GroupText(group))[|host| + 1..], {'@'}) <==>
            FreeOf(port, {'@'}) && FreeOf(group, {'@'})
  {
    assert (host + ":" + port + GroupText(group))[|host| + 1..] == port + GroupText(group);
    FreeOfAppend(port, GroupText(group), {'@'});
    if group != "" {
      FreeOfAppend("#", group, {'@'});
    }
  }

  lemma FreeOfAppend(a: string, b: string, stops: set<char>)
    ensures FreeOf(a + b, stops) <==> FreeOf(a, stops) && FreeOf(b, stops)
  {
    assert forall c :: c in a + b <==> c in a || c in b;
  }

  // The regular expression reads a printed row back exactly when the fields hold no
  // delimiter out of place and no line break.
  lemma SearchPrinted(user: string, pass: string, host: string, port: string, group: string)
    ensures Search(Printed(user, pass, host, port, group)) == Some(PartsOf(user, pass, host, port, group)) <==>
            Delimited(user, pass, host, port, group) && OneLine(Printed(user, pass, host, port, group))
  {
    var s := Printed(user, pass, host, port, group);
    if OneLine(s) {
      MatchIsScan(s);
      ScanPrinted(user, pass, host, port, group);
    } else {
      var q :| 0 <= q < |s| && s[q] == '\n';
      if q + 1 < |s| {
        NoMatchAcrossLines(s, q);
      } else {
        LastOfPrinted(user, pass, host, port, group);
        if Search(s).Some? {
          FoundPartsAreClean(s);
        }
      }
    }
  }

  lemma LastOfPrinted(user: string, pass: string, host: string, port: string, group: string)
    ensures var s := Printed(user, pass, host, port, group);
            OneLine(port) && OneLine(group) ==> s[|s| - 1] != '\n'
  {
    var s := Printed(user, pass, host, port, group);
    if group != "" {
      assert s[|s| - 1] == group[|group| - 1];
    } else if port != "" {
      assert s[|s| - 1] == port[|port| - 1];
    } else {
      assert s[|s| - 1] == ':';
    }
  }
}
