// The regular expression for 'user:pass@host:port#group' under a backtracking matcher,
// and the left-to-right scan it amounts to.
module ServerPattern {
  import opened Options

  // ---- a backtracking matcher for the constructs the pattern uses ----

  datatype Item =
    | Lit(c: char)               // the character itself
    | Lazy(group: nat)           // (.*?) captured as a group
    | Optional(body: seq<Item>)  // (?:body)? tried before it is skipped
    | End                        // $

  type Groups = map<nat, string>

  function Size(k: seq<Item>): nat {
    if k == [] then 0 else ItemSize(k[0]) + Size(k[1..])
  }

  function ItemSize(i: Item): (n: nat)
    ensures n > 0
  {
    match i
    case Optional(body) => 2 + Size(body)
    case _ => 1
  }

  lemma SizeAppend(a: seq<Item>, b: seq<Item>)
    ensures Size(a + b) == Size(a) + Size(b)
  {
    if a == [] {
      assert a + b == b;
    } else {
      assert (a + b)[1..] == a[1..] + b;
      SizeAppend(a[1..], b);
    }
  }

  // $ also matches just before a final newline.
  predicate AtEnd(s: string, i: nat) {
    i == |s| || (i + 1 == |s| && s[i] == '\n')
  }

  // The first match in priority order of the items k against s from position i on,
  // with the groups captured so far.
  function Match(k: seq<Item>, s: string, i: nat, g: Groups): Option<Groups>
    requires i <= |s|
    decreases Size(k), |s| - i, 1
  {
    if k == [] then Some(g)
    else
      match k[0]
      case Lit(c) => if i < |s| && s[i] == c then Match(k[1..], s, i + 1, g) else None
      case End => if AtEnd(s, i) then Match(k[1..], s, i, g) else None
      case Lazy(n) => Extend(n, k[1..], s, i, i, g)
      case Optional(body) =>
        SizeAppend(body, k[1..]);
        assert Size(k) == 2 + Size(body) + Size(k[1..]);
        var taken := Match(body + k[1..], s, i, g);
        if taken.Some? then taken else Match(k[1..], s, i, g)
  }

  // A lazy group that began at i and now reaches j: stop here if the rest matches,
  // otherwise take one more character, which a dot refuses if it is a newline.
  function Extend(n: nat, k: seq<Item>, s: string, i: nat, j: nat, g: Groups): Option<Groups>
    requires i <= j <= |s|
    decreases Size(k) + 1, |s| - j, 0
  {
    var here := Match(k, s, j, g[n := s[i..j]]);
    if here.Some? then here
    else if j < |s| && s[j] != '\n' then Extend(n, k, s, i, j + 1, g)
    else None
  }

  const USER := 1
  const PASS := 2
  const IP := 3
  const PORT := 4
  const GROUP := 5

  const AUTH_PART: seq<Item> := [Lazy(USER), Lit(':'), Lazy(PASS), Lit('@')]
  const GROUP_TAIL: seq<Item> := [Optional([Lit('#'), Lazy(GROUP)]), End]
  const PORT_TAIL: seq<Item> := [Optional([Lit(':'), Lazy(PORT)])] + GROUP_TAIL
  const HOST_TAIL: seq<Item> := [Lazy(IP)] + PORT_TAIL
  const SERVER_PATTERN: seq<Item> := [Optional(AUTH_PART)] + HOST_TAIL

  // ---- the scan ----

  // The first position from i on that holds one of the characters, or the end.
  function Next(s: string, i: nat, stops: set<char>): (p: nat)
    requires i <= |s|
    ensures i <= p <= |s|
    ensures p < |s| ==> s[p] in stops
    ensures forall q :: i <= q < p ==> s[q] !in stops
    decreases |s| - i
  {
    if i == |s| || s[i] in stops then i else Next(s, i + 1, stops)
  }

  datatype Parts = Parts(user: Option<string>, pass: Option<string>, ip: string,
                         port: Option<string>, group: Option<string>)

  // One pass over the host part that starts at i: the host up to ':' or '#', then the port
  // up to '#', then the group.
  function ScanHost(s: string, i: nat, user: Option<string>, pass: Option<string>): Parts
    requires i <= |s|
  {
    var h := Next(s, i, {':', '#'});
    if h == |s| then Parts(user, pass, s[i..h], None, None)
    else if s[h] == '#' then Parts(user, pass, s[i..h], None, Some(s[h + 1..]))
    else
      var p := Next(s, h + 1, {'#'});
      Parts(user, pass, s[i..h], Some(s[h + 1..p]), if p == |s| then None else Some(s[p + 1..]))
  }

  // Credentials are there exactly when an '@' follows the first ':'.
  function Scan(s: string): Parts {
    var c := Next(s, 0, {':'});
    if c == |s| then ScanHost(s, 0, None, None)
    else
      var a := Next(s, c + 1, {'@'});
      if a == |s| then ScanHost(s, 0, None, None)
      else ScanHost(s, a + 1, Some(s[0..c]), Some(s[c + 1..a]))
  }

  function Group(g: Groups, n: nat): Option<string> {
    if n in g then Some(g[n]) else None
  }

  // re.search(...).groups()
  function GroupsOf(g: Groups): Parts {
    Parts(Group(g, USER), Group(g, PASS), if IP in g then g[IP] else "", Group(g, PORT), Group(g, GROUP))
  }

  function Search(s: string): Option<Parts> {
    var m := Match(SERVER_PATTERN, s, 0, map[]);
    if m.Some? then Some(GroupsOf(m.value)) else None
  }

  // ---- the equivalence ----

  predicate OneLine(s: string) { '\n' !in s }

  lemma {:induction false} ExtendToFirst(n: nat, k: seq<Item>, s: string, i: nat, j: nat, j1: nat, g: Groups)
    requires i <= j <= j1 <= |s| && OneLine(s)
    requires forall q :: j <= q < j1 ==> Match(k, s, q, g[n := s[i..q]]).None?
    ensures Extend(n, k, s, i, j, g) == Extend(n, k, s, i, j1, g)
    decreases j1 - j
  {
    if j < j1 {
      assert s[j] in s;
      ExtendToFirst(n, k, s, i, j + 1, j1, g);
    }
  }

  // One step of the matcher for each construct at the front of the pattern.
  lemma LitStep(c: char, k: seq<Item>, s: string, i: nat, g: Groups)
    requires i <= |s|
    ensures Match([Lit(c)] + k, s, i, g) == if i < |s| && s[i] == c then Match(k, s, i + 1, g) else None
  {
    assert ([Lit(c)] + k)[1..] == k;
  }

  lemma EndStep(s: string, i: nat, g: Groups)
    requires i <= |s| && OneLine(s)
    ensures Match([End], s, i, g) == if i == |s| then Some(g) else None
  {
    assert [End][1..] == [];
    assert i < |s| ==> s[i] in s;
  }

  lemma OptionalStep(body: seq<Item>, k: seq<Item>, s: string, i: nat, g: Groups)
    requires i <= |s|
    ensures Match([Optional(body)] + k, s, i, g) ==
            if Match(body + k, s, i, g).Some? then Match(body + k, s, i, g) else Match(k, s, i, g)
  {
    assert ([Optional(body)] + k)[1..] == k;
  }

  // A lazy group stops at the first place where the rest of the pattern matches.
  lemma LazyStep(n: nat, k: seq<Item>, s: string, i: nat, j: nat, g: Groups)
    requires i <= j <= |s| && OneLine(s)
    requires forall q :: i <= q < j ==> Match(k, s, q, g[n := s[i..q]]).None?
    requires j < |s| ==> Match(k, s, j, g[n := s[i..j]]).Some?
    ensures Match([Lazy(n)] + k, s, i, g) == Match(k, s, j, g[n := s[i..j]])
  {
    assert ([Lazy(n)] + k)[1..] == k;
    ExtendToFirst(n, k, s, i, i, j, g);
  }

  // A lazy group runs to the end of the line when only $ may follow.
  lemma LazyToEnd(n: nat, s: string, i: nat, g: Groups)
    requires i <= |s| && OneLine(s)
    ensures Match([Lazy(n)] + [End], s, i, g) == Some(g[n := s[i..]])
  {
    forall q | i <= q <= |s|
      ensures Match([End], s, q, g[n := s[i..q]]) == if q == |s| then Some(g[n := s[i..]]) else None
    {
      EndStep(s, q, g[n := s[i..q]]);
      assert s[i..|s|] == s[i..];
    }
    LazyStep(n, [End], s, i, |s|, g);
  }

  // After the port: a '#' starts the group, otherwise the line must end.
  lemma GroupTail(s: string, i: nat, g: Groups)
    requires i <= |s| && OneLine(s)
    ensures Match(GROUP_TAIL, s, i, g) ==
            if i < |s| && s[i] == '#' then Some(g[GROUP := s[i + 1..]])
            else if i == |s| then Some(g) else None
  {
    OptionalStep([Lit('#'), Lazy(GROUP)], [End], s, i, g);
    assert GROUP_TAIL == [Optional([Lit('#'), Lazy(GROUP)])] + [End];
    assert [Lit('#'), Lazy(GROUP)] + [End] == [Lit('#')] + ([Lazy(GROUP)] + [End]);
    LitStep('#', [Lazy(GROUP)] + [End], s, i, g);
    if i < |s| {
      LazyToEnd(GROUP, s, i + 1, g);
    }
    EndStep(s, i, g);
  }

  function WithGroup(s: string, i: nat, g: Groups): Groups
    requires i <= |s|
  {
    if i < |s| then g[GROUP := s[i + 1..]] else g
  }

  // The port is the text up to the next '#'.
  lemma PortThenGroup(s: string, i: nat, g: Groups)
    requires i <= |s| && OneLine(s)
    ensures var p := Next(s, i, {'#'});
            Match([Lazy(PORT)] + GROUP_TAIL, s, i, g) == Some(WithGroup(s, p, g[PORT := s[i..p]]))
  {
    var p := Next(s, i, {'#'});
    forall q | i <= q <= p
      ensures Match(GROUP_TAIL, s, q, g[PORT := s[i..q]]) ==
              if q == p then Some(WithGroup(s, p, g[PORT := s[i..p]])) else None
    {
      GroupTail(s, q, g[PORT := s[i..q]]);
    }
    LazyStep(PORT, GROUP_TAIL, s, i, p, g);
  }

  lemma PortTail(s: string, i: nat, g: Groups)
    requires i <= |s| && OneLine(s)
    ensures Match(PORT_TAIL, s, i, g) ==
            if i == |s| then Some(g)
            else if s[i] == '#' then Some(g[GROUP := s[i + 1..]])
            else if s[i] == ':' then
              (var p := Next(s, i + 1, {'#'}); Some(WithGroup(s, p, g[PORT := s[i + 1..p]])))
            else None
  {
    OptionalStep([Lit(':'), Lazy(PORT)], GROUP_TAIL, s, i, g);
    assert [Lit(':'), Lazy(PORT)] + GROUP_TAIL == [Lit(':')] + ([Lazy(PORT)] + GROUP_TAIL);
    LitStep(':', [Lazy(PORT)] + GROUP_TAIL, s, i, g);
    GroupTail(s, i, g);
    if i < |s| {
      PortThenGroup(s, i + 1, g);
    }
  }

  // The groups the host part captures when it starts at i.
  function HostGroups(s: string, i: nat, g: Groups): Groups
    requires i <= |s|
  {
    var h := Next(s, i, {':', '#'});
    var g1 := g[IP := s[i..h]];
    if h < |s| && s[h] == ':' then
      var p := Next(s, h + 1, {'#'});
      WithGroup(s, p, g1[PORT := s[h + 1..p]])
    else WithGroup(s, h, g1)
  }

  lemma HostTail(s: string, i: nat, g: Groups)
    requires i <= |s| && OneLine(s)
    ensures Match(HOST_TAIL, s, i, g) == Some(HostGroups(s, i, g))
  {
    var h := Next(s, i, {':', '#'});
    forall q | i <= q <= h
      ensures Match(PORT_TAIL, s, q, g[IP := s[i..q]]) == if q == h then Some(HostGroups(s, i, g)) else None
    {
      PortTail(s, q, g[IP := s[i..q]]);
    }
    LazyStep(IP, PORT_TAIL, s, i, h, g);
  }

  const PASS_TAIL: seq<Item> := [Lazy(PASS)] + ([Lit('@')] + HOST_TAIL)

  // The password reaches the first '@' from i on; without one the attempt fails.
  lemma PassPart(s: string, i: nat, g: Groups)
    requires i <= |s| && OneLine(s)
    ensures var a := Next(s, i, {'@'});
            Match(PASS_TAIL, s, i, g) ==
            if a < |s| then Some(HostGroups(s, a + 1, g[PASS := s[i..a]])) else None
  {
    var a := Next(s, i, {'@'});
    var k := [Lit('@')] + HOST_TAIL;
    forall q | i <= q <= a
      ensures Match(k, s, q, g[PASS := s[i..q]]) ==
              if q < |s| && q == a then Some(HostGroups(s, a + 1, g[PASS := s[i..a]])) else None
    {
      LitStep('@', HOST_TAIL, s, q, g[PASS := s[i..q]]);
      if q < |s| {
        HostTail(s, q + 1, g[PASS := s[i..q]]);
      }
    }
    LazyStep(PASS, k, s, i, a, g);
  }

  lemma NextIsLater(s: string, i: nat, j: nat, stops: set<char>)
    requires i <= j <= |s| && Next(s, i, stops) == |s|
    ensures Next(s, j, stops) == |s|
  {
  }

  function AuthGroups(s: string): Option<Groups> {
    var c := Next(s, 0, {':'});
    if c == |s| then None
    else
      var a := Next(s, c + 1, {'@'});
      if a == |s| then None else Some(HostGroups(s, a + 1, map[USER := s[0..c], PASS := s[c + 1..a]]))
  }

  // No credentials can be read from s.
  predicate NoAuth(s: string) {
    var c := Next(s, 0, {':'});
    c == |s| || Next(s, c + 1, {'@'}) == |s|
  }

  // The match with the user ending at q.
  lemma AuthAtStop(s: string, q: nat)
    requires OneLine(s) && q <= |s| && (NoAuth(s) || q <= Next(s, 0, {':'}))
    ensures Match([Lit(':')] + PASS_TAIL, s, q, map[USER := s[0..q]]) ==
            if q == Next(s, 0, {':'}) && !NoAuth(s) then AuthGroups(s) else None
  {
    var c := Next(s, 0, {':'});
    LitStep(':', PASS_TAIL, s, q, map[USER := s[0..q]]);
    if q < |s| {
      PassPart(s, q + 1, map[USER := s[0..q]]);
      if NoAuth(s) && c <= q {
        NextIsLater(s, c + 1, q + 1, {'@'});
      }
    }
  }

  // Trying a later ':' never helps: it has no more '@' behind it than the first one.
  lemma AuthPart(s: string)
    requires OneLine(s)
    ensures Match(AUTH_PART + HOST_TAIL, s, 0, map[]) == AuthGroups(s)
  {
    var k := [Lit(':')] + PASS_TAIL;
    var stop := if NoAuth(s) then |s| else Next(s, 0, {':'});
    assert AUTH_PART + HOST_TAIL == [Lazy(USER)] + k;
    forall q | 0 <= q <= stop
      ensures Match(k, s, q, (map[])[USER := s[0..q]]) == if q == stop && !NoAuth(s) then AuthGroups(s) else None
    {
      AuthAtStop(s, q);
      assert (map[])[USER := s[0..q]] == map[USER := s[0..q]];
    }
    LazyStep(USER, k, s, 0, stop, map[]);
  }

  lemma HostIsScan(s: string, i: nat, g: Groups)
    requires i <= |s| && PORT !in g && GROUP !in g
    ensures GroupsOf(HostGroups(s, i, g)) == ScanHost(s, i, Group(g, USER), Group(g, PASS))
  {
    var h := Next(s, i, {':', '#'});
    var g1 := g[IP := s[i..h]];
    if h < |s| && s[h] == ':' {
      var p := Next(s, h + 1, {'#'});
      var g2 := g1[PORT := s[h + 1..p]];
      assert WithGroup(s, p, g2)[PORT] == s[h + 1..p];
    }
  }

  function MatchedGroups(s: string): Groups {
    if AuthGroups(s).Some? then AuthGroups(s).value else HostGroups(s, 0, map[])
  }

  lemma MatchSucceeds(s: string)
    requires OneLine(s)
    ensures Match(SERVER_PATTERN, s, 0, map[]) == Some(MatchedGroups(s))
  {
    OptionalStep(AUTH_PART, HOST_TAIL, s, 0, map[]);
    AuthPart(s);
    HostTail(s, 0, map[]);
  }

  lemma TwoGroups(user: string, pass: string, g: Groups)
    requires g == map[USER := user, PASS := pass]
    ensures Group(g, USER) == Some(user) && Group(g, PASS) == Some(pass) && PORT !in g && GROUP !in g
  {
  }

  lemma AuthScan(s: string, c: nat, a: nat, g: Groups)
    requires !NoAuth(s) && c == Next(s, 0, {':'}) && a == Next(s, c + 1, {'@'})
    requires g == map[USER := s[0..c], PASS := s[c + 1..a]]
    ensures AuthGroups(s) == Some(HostGroups(s, a + 1, g))
    ensures Scan(s) == ScanHost(s, a + 1, Some(s[0..c]), Some(s[c + 1..a]))
  {
  }

  lemma MatchedIsScan(s: string)
    ensures GroupsOf(MatchedGroups(s)) == Scan(s)
  {
    if NoAuth(s) {
      HostIsScan(s, 0, map[]);
    } else {
      var c := Next(s, 0, {':'});
      var a := Next(s, c + 1, {'@'});
      var g: Groups := map[USER := s[0..c], PASS := s[c + 1..a]];
      AuthScan(s, c, a, g);
      TwoGroups(s[0..c], s[c + 1..a], g);
      HostIsScan(s, a + 1, g);
    }
  }

  // On every single-line string the backtracking match succeeds, and its groups are the scan's.
  lemma MatchIsScan(s: string)
    requires OneLine(s)
    ensures Search(s) == Some(Scan(s))
  {
    MatchSucceeds(s);
    MatchedIsScan(s);
  }

  // ---- more than one line ----

  predicate NoNewlineLiteral(k: seq<Item>)
    decreases Size(k)
  {
    k == [] || (NoNewlineLiteral(k[1..]) &&
                match k[0]
                case Lit(c) => c != '\n'
                case Optional(body) => assert Size(k) == 2 + Size(body) + Size(k[1..]); NoNewlineLiteral(body)
                case _ => true)
  }

  lemma NoNewlineLiteralAppend(a: seq<Item>, b: seq<Item>)
    requires NoNewlineLiteral(a) && NoNewlineLiteral(b)
    ensures NoNewlineLiteral(a + b)
  {
    if a == [] {
      assert a + b == b;
    } else {
      NoNewlineLiteralAppend(a[1..], b);
      assert (a + b)[1..] == a[1..] + b;
      assert (a + b)[0] == a[0];
    }
  }

  predicate Anchored(k: seq<Item>) {
    k != [] && k[|k| - 1] == End && NoNewlineLiteral(k)
  }

  predicate NoNewlineBeforeLast(s: string, i: nat) {
    forall q :: i <= q < |s| - 1 ==> s[q] != '\n'
  }

  lemma {:induction false} MatchStaysOnLine(k: seq<Item>, s: string, i: nat, g: Groups)
    requires i <= |s| && Anchored(k) && Match(k, s, i, g).Some?
    ensures NoNewlineBeforeLast(s, i)
    decreases Size(k), |s| - i, 1
  {
    match k[0]
    case Lit(c) =>
      MatchStaysOnLine(k[1..], s, i + 1, g);
    case End =>
    case Lazy(n) =>
      ExtendStaysOnLine(n, k[1..], s, i, i, g);
    case Optional(body) =>
      SizeAppend(body, k[1..]);
      assert Size(k) == 2 + Size(body) + Size(k[1..]);
      NoNewlineLiteralAppend(body, k[1..]);
      if Match(body + k[1..], s, i, g).Some? {
        MatchStaysOnLine(body + k[1..], s, i, g);
      } else {
        MatchStaysOnLine(k[1..], s, i, g);
      }
  }

  lemma {:induction false} ExtendStaysOnLine(n: nat, k: seq<Item>, s: string, i: nat, j: nat, g: Groups)
    requires i <= j <= |s| && Anchored(k) && Extend(n, k, s, i, j, g).Some?
    ensures NoNewlineBeforeLast(s, j)
    decreases Size(k) + 1, |s| - j, 0
  {
    if Match(k, s, j, g[n := s[i..j]]).Some? {
      MatchStaysOnLine(k, s, j, g[n := s[i..j]]);
    } else {
      ExtendStaysOnLine(n, k, s, i, j + 1, g);
    }
  }

  lemma PatternIsAnchored()
    ensures Anchored(SERVER_PATTERN)
  {
    assert NoNewlineLiteral([End]);
    assert NoNewlineLiteral([Lazy(GROUP)]);
    assert NoNewlineLiteral([Lit('#'), Lazy(GROUP)]);
    NoNewlineLiteralAppend([Optional([Lit('#'), Lazy(GROUP)])], [End]);
    assert GROUP_TAIL == [Optional([Lit('#'), Lazy(GROUP)])] + [End];
    assert NoNewlineLiteral([Lazy(PORT)]);
    assert NoNewlineLiteral([Lit(':'), Lazy(PORT)]);
    NoNewlineLiteralAppend([Optional([Lit(':'), Lazy(PORT)])], GROUP_TAIL);
    NoNewlineLiteralAppend([Lazy(IP)], PORT_TAIL);
    assert NoNewlineLiteral([Lit('@')]);
    assert NoNewlineLiteral([Lazy(PASS), Lit('@')]);
    assert NoNewlineLiteral([Lit(':'), Lazy(PASS), Lit('@')]);
    assert NoNewlineLiteral(AUTH_PART);
    NoNewlineLiteralAppend([Optional(AUTH_PART)], HOST_TAIL);
  }

  // A string with a line break inside does not match at all.
  lemma NoMatchAcrossLines(s: string, q: nat)
    requires q + 1 < |s| && s[q] == '\n'
    ensures Search(s).None?
  {
    PatternIsAnchored();
    if Search(s).Some? {
      MatchStaysOnLine(SERVER_PATTERN, s, 0, map[]);
    }
  }

  predicate CleanGroups(g: Groups) {
    forall n :: n in g ==> OneLine(g[n])
  }

  // A dot never takes a newline, so no group holds one.
  lemma {:induction false} MatchGroupsClean(k: seq<Item>, s: string, i: nat, g: Groups)
    requires i <= |s| && CleanGroups(g) && Match(k, s, i, g).Some?
    ensures CleanGroups(Match(k, s, i, g).value)
    decreases Size(k), |s| - i, 1
  {
    if k != [] {
      match k[0]
      case Lit(c) => MatchGroupsClean(k[1..], s, i + 1, g);
      case End => MatchGroupsClean(k[1..], s, i, g);
      case Lazy(n) => ExtendGroupsClean(n, k[1..], s, i, i, g);
      case Optional(body) =>
        SizeAppend(body, k[1..]);
        assert Size(k) == 2 + Size(body) + Size(k[1..]);
        if Match(body + k[1..], s, i, g).Some? {
          MatchGroupsClean(body + k[1..], s, i, g);
        } else {
          MatchGroupsClean(k[1..], s, i, g);
        }
    }
  }

  lemma {:induction false} ExtendGroupsClean(n: nat, k: seq<Item>, s: string, i: nat, j: nat, g: Groups)
    requires i <= j <= |s| && CleanGroups(g) && OneLine(s[i..j]) && Extend(n, k, s, i, j, g).Some?
    ensures CleanGroups(Extend(n, k, s, i, j, g).value)
    decreases Size(k) + 1, |s| - j, 0
  {
    if Match(k, s, j, g[n := s[i..j]]).Some? {
      MatchGroupsClean(k, s, j, g[n := s[i..j]]);
    } else {
      assert s[i..j + 1] == s[i..j] + [s[j]];
      ExtendGroupsClean(n, k, s, i, j + 1, g);
    }
  }

  predicate CleanPart(p: Option<string>) {
    p.Some? ==> OneLine(p.value)
  }

  lemma FoundPartsAreClean(s: string)
    requires Search(s).Some?
    ensures CleanPart(Search(s).value.port) && CleanPart(Search(s).value.group)
  {
    MatchGroupsClean(SERVER_PATTERN, s, 0, map[]);
  }
}
