// Turning configured servers into the four parallel lists the application works with.
module ServerDerivation {
  import opened Options
  import opened Sequences
  import opened ServerPattern
  import opened ServerStrings
  import opened Texts

  // One configured server: a string, or a legacy tuple (usr, psw, ip, port, group).
  datatype ServerSpec = Text(text: string) | Tuple(fields: seq<string>)

  datatype Entry = Entry(group: string, ip: string, port: string, auth: Auth, publicUrl: string)

  // ---- one entry ----

  function OrDefault(p: Option<string>, default: string): string {
    if p.Some? && Strip(p.value, Whitespace) != "" then Strip(p.value, Whitespace) else default
  }

  function EntryOf(parts: Parts, publicUrl: string): Entry {
    Entry(OrDefault(parts.group, ""), OrDefault(Some(parts.ip), "127.0.0.1"), OrDefault(parts.port, "6800"),
          if parts.user.Some? && parts.pass.Some? && parts.user.value != "" && parts.pass.value != ""
          then Some((parts.user.value, parts.pass.value)) else None,
          Strip(publicUrl, SpaceOrSlash))
  }

  // None when the tuple has another length or the string does not match.
  function PartsOfSpec(spec: ServerSpec): Option<Parts> {
    match spec
    case Text(t) => Search(Strip(t, Whitespace))
    case Tuple(f) =>
      if |f| == 5 then Some(Parts(Some(f[0]), Some(f[1]), f[2], Some(f[3]), Some(f[4]))) else None
  }

  function EntryAt(spec: ServerSpec, publicUrl: string): Option<Entry> {
    var p := PartsOfSpec(spec);
    if p.None? then None else Some(EntryOf(p.value, publicUrl))
  }

  // ---- the canonical order ----

  datatype SortKey = SortKey(group: string, ip: string, port: int)

  // '0' * (3 - len(part)) + part
  function Padded(part: string): string {
    match |part|
    case 0 => "000"
    case 1 => "00" + part
    case 2 => "0" + part
    case _ => part
  }

  function PadAll(parts: seq<string>): (r: seq<string>)
    ensures |r| == |parts|
    ensures forall i :: 0 <= i < |parts| ==> r[i] == Padded(parts[i])
  {
    if parts == [] then [] else [Padded(parts[0])] + PadAll(parts[1..])
  }

  // int(port), for ports that int accepts.
  function PortNumber(port: string): int {
    if ParseInt(port).Some? then ParseInt(port).value else 0
  }

  function KeyOf(e: Entry): SortKey {
    SortKey(e.group, Join(PadAll(Split(e.ip, '.')), '.'), PortNumber(e.port))
  }

  predicate KeyLeq(a: SortKey, b: SortKey) {
    if a.group != b.group then LexLeq(a.group, b.group)
    else if a.ip != b.ip then LexLeq(a.ip, b.ip)
    else a.port <= b.port
  }

  lemma KeyLeqIsTotalOrder(a: SortKey, b: SortKey, c: SortKey)
    ensures KeyLeq(a, b) || KeyLeq(b, a)
    ensures KeyLeq(a, b) && KeyLeq(b, a) ==> a == b
    ensures KeyLeq(a, b) && KeyLeq(b, c) ==> KeyLeq(a, c)
  {
    LexTotal(a.group, b.group);
    LexTotal(a.ip, b.ip);
    if KeyLeq(a, b) && KeyLeq(b, a) {
      if a.group != b.group {
        LexAntisymmetric(a.group, b.group);
      } else if a.ip != b.ip {
        LexAntisymmetric(a.ip, b.ip);
      }
    }
    if KeyLeq(a, b) && KeyLeq(b, c) {
      if a.group != b.group && b.group != c.group {
        LexTransitive(a.group, b.group, c.group);
        if a.group == c.group {
          LexAntisymmetric(a.group, b.group);
        }
      } else if a.group == b.group == c.group && a.ip != b.ip && b.ip != c.ip {
        LexTransitive(a.ip, b.ip, c.ip);
        if a.ip == c.ip {
          LexAntisymmetric(a.ip, b.ip);
        }
      }
    }
  }

  predicate ValidPorts(es: set<Entry>) {
    forall e <- es :: ParseInt(e.port).Some?
  }

  predicate Sorted(es: seq<Entry>) {
    forall i, j :: 0 <= i < j < |es| ==> KeyLeq(KeyOf(es[i]), KeyOf(es[j]))
  }

  function Elements<T>(s: seq<T>): set<T> {
    set x <- s
  }

  // out lists each entry of pool once, in canonical order.
  predicate IsSortOf(out: seq<Entry>, pool: set<Entry>) {
    Sorted(out) && NoRepeats(out) && Elements(out) == pool
  }

  // Places one more entry into a sorted list.
  method Insert(out: seq<Entry>, e: Entry) returns (r: seq<Entry>)
    requires Sorted(out) && NoRepeats(out) && e !in out
    ensures IsSortOf(r, Elements(out) + {e})
  {
    var i := 0;
    while i < |out| && KeyLeq(KeyOf(out[i]), KeyOf(e))
      invariant i <= |out|
      invariant forall j :: 0 <= j < i ==> KeyLeq(KeyOf(out[j]), KeyOf(e))
    {
      i := i + 1;
    }
    InsertedAt(out, e, i);
    r := out[..i] + [e] + out[i..];
  }

  lemma InsertedAt(out: seq<Entry>, e: Entry, i: nat)
    requires Sorted(out) && NoRepeats(out) && e !in out
    requires i <= |out| && forall j :: 0 <= j < i ==> KeyLeq(KeyOf(out[j]), KeyOf(e))
    requires i < |out| ==> !KeyLeq(KeyOf(out[i]), KeyOf(e))
    ensures IsSortOf(out[..i] + [e] + out[i..], Elements(out) + {e})
  {
    var r := out[..i] + [e] + out[i..];
    forall j | i <= j < |out| ensures KeyLeq(KeyOf(e), KeyOf(out[j])) {
      KeyLeqIsTotalOrder(KeyOf(e), KeyOf(out[i]), KeyOf(out[j]));
      assert i < j ==> KeyLeq(KeyOf(out[i]), KeyOf(out[j]));
    }
    InsertElements(out, e, i);
    NoRepeatsWithInsert(out, e, i, r);
    SortedKeysWithInsert(Keys(out), KeyOf(e), i, Keys(r));
    forall a, b | 0 <= a < b < |r| ensures KeyLeq(KeyOf(r[a]), KeyOf(r[b])) {
      assert KeyLeq(Keys(r)[a], Keys(r)[b]);
    }
  }

  lemma InsertElements<T>(out: seq<T>, e: T, i: nat)
    requires i <= |out|
    ensures Elements(out[..i] + [e] + out[i..]) == Elements(out) + {e}
    ensures IsInsert(out, e, i, out[..i] + [e] + out[i..])
  {
    assert out == out[..i] + out[i..];
  }

  // A list that is another one with e put in at position i.
  predicate IsInsert<T(==)>(out: seq<T>, e: T, i: nat, r: seq<T>)
    requires i <= |out|
  {
    && |r| == |out| + 1
    && (forall j :: 0 <= j < i ==> r[j] == out[j])
    && r[i] == e
    && (forall j {:trigger r[j]} :: i < j < |r| ==> r[j] == out[j - 1])
  }

  lemma NoRepeatsWithInsert<T>(out: seq<T>, e: T, i: nat, r: seq<T>)
    requires i <= |out| && IsInsert(out, e, i, r) && NoRepeats(out) && e !in out
    ensures NoRepeats(r)
  {
    forall a, b | 0 <= a < b < |r| ensures r[a] != r[b] {
    }
  }

  predicate SortedKeys(ks: seq<SortKey>) {
    forall i, j :: 0 <= i < j < |ks| ==> KeyLeq(ks[i], ks[j])
  }

  function Keys(es: seq<Entry>): seq<SortKey> {
    seq(|es|, i requires 0 <= i < |es| => KeyOf(es[i]))
  }

  lemma SortedKeysWithInsert(ks: seq<SortKey>, k: SortKey, i: nat, r: seq<SortKey>)
    requires i <= |ks| && IsInsert(ks, k, i, r) && SortedKeys(ks)
    requires forall j :: 0 <= j < i ==> KeyLeq(ks[j], k)
    requires forall j :: i <= j < |ks| ==> KeyLeq(k, ks[j])
    ensures SortedKeys(r)
  {
    forall a, b | 0 <= a < b < |r| ensures KeyLeq(r[a], r[b]) {
      if a != i && b != i {
        var a', b' := if a < i then a else a - 1, if b < i then b else b - 1;
        assert r[a] == ks[a'] && r[b] == ks[b'];
      }
    }
  }

  // sorted(set(servers), key=key_func); ties come out in an arbitrary order.
  method SortEntries(pool: set<Entry>) returns (out: seq<Entry>)
    ensures IsSortOf(out, pool)
  {
    out := [];
    var rest := pool;
    while rest != {}
      invariant rest <= pool && IsSortOf(out, pool - rest)
      decreases rest
    {
      var e :| e in rest;
      assert e !in Elements(out);
      out := Insert(out, e);
      rest := rest - {e};
      assert pool - rest == Elements(out);
    }
  }

  predicate DistinctSortKeys(pool: set<Entry>) {
    forall a <- pool, b <- pool :: a != b ==> KeyOf(a) != KeyOf(b)
  }

  // Without ties there is only one sorted list.
  lemma {:induction false} SortIsUnique(a: seq<Entry>, b: seq<Entry>, pool: set<Entry>)
    requires DistinctSortKeys(pool) && IsSortOf(a, pool) && IsSortOf(b, pool)
    ensures a == b
    decreases |a|
  {
    EmptyElements(a);
    EmptyElements(b);
    if a != [] {
      assert a[0] in Elements(b) && b[0] in Elements(a);
      KeyLeqIsTotalOrder(KeyOf(a[0]), KeyOf(b[0]), KeyOf(a[0]));
      assert a[0] == b[0];
      var rest := pool - {a[0]};
      TailIsSort(a, pool);
      TailIsSort(b, pool);
      SortIsUnique(a[1..], b[1..], rest);
    }
  }

  lemma EmptyElements<T>(s: seq<T>)
    ensures Elements(s) == {} <==> s == []
  {
    if s != [] {
      assert s[0] in Elements(s);
    }
  }

  lemma TailIsSort(a: seq<Entry>, pool: set<Entry>)
    requires IsSortOf(a, pool) && a != []
    ensures IsSortOf(a[1..], pool - {a[0]})
  {
    forall x ensures x in Elements(a[1..]) <==> x in pool - {a[0]} {
      assert a == [a[0]] + a[1..];
    }
  }

  // ---- the derivation ----

  datatype Failure = LengthMismatch | BadTuple | BadText | BadPort

  // The server part of the settings dictionary.
  class ServerSettings {
    var raw: seq<ServerSpec>           // _SCRAPYD_SERVERS
    var servers: seq<ServerSpec>       // SCRAPYD_SERVERS
    var publicUrls: seq<string>        // SCRAPYD_SERVERS_PUBLIC_URLS
    var groups: seq<string>            // SCRAPYD_SERVERS_GROUPS
    var auths: seq<Auth>               // SCRAPYD_SERVERS_AUTHS

    constructor (raw: seq<ServerSpec>, servers: seq<ServerSpec>, publicUrls: seq<string>)
      ensures this.raw == raw && this.servers == servers && this.publicUrls == publicUrls
    {
      this.raw, this.servers, this.publicUrls := raw, servers, publicUrls;
      groups, auths := [], [];
    }

    // The raw strings win over the credential-stripped list of an earlier derivation.
    function Configured(): seq<ServerSpec>
      reads this
    {
      if raw != [] then raw else servers
    }

    // The four lists describe these entries, index by index.
    predicate Describes(es: seq<Entry>)
      reads this
    {
      && |servers| == |publicUrls| == |groups| == |auths| == |es|
      && forall i :: 0 <= i < |es| ==>
           && servers[i] == Text(es[i].ip + ":" + es[i].port)
           && groups[i] == es[i].group
           && auths[i] == es[i].auth
           && publicUrls[i] == es[i].publicUrl
    }

    // Either the four lists become a canonical listing of exactly the configured entries,
    // each index one entry, or nothing changes.
    method CheckScrapydServers() returns (failure: Option<Failure>, ghost es: seq<Entry>)
      modifies this`servers, this`publicUrls, this`groups, this`auths
      ensures failure.None? <==> Derivable(old(Configured()), UrlsFor(old(Configured()), old(publicUrls)))
      ensures failure.None? ==> Describes(es)
      ensures failure.None? ==> IsSortOf(es, EntrySet(old(Configured()), UrlsFor(old(Configured()), old(publicUrls))))
      ensures failure.Some? ==> unchanged(this)
    {
      es := [];
      var urls := UrlsFor(Configured(), publicUrls);
      var entries;
      failure, entries := ParseServers(Configured(), urls);
      if failure.None? {
        var sorted := SortEntries(entries);
        Install(sorted);
        es := sorted;
      }
    }

    method Install(es: seq<Entry>)
      modifies this`servers, this`publicUrls, this`groups, this`auths
      ensures Describes(es)
    {
      servers := seq(|es|, i requires 0 <= i < |es| => Text(es[i].ip + ":" + es[i].port));
      groups := seq(|es|, i requires 0 <= i < |es| => es[i].group);
      auths := seq(|es|, i requires 0 <= i < |es| => es[i].auth);
      publicUrls := seq(|es|, i requires 0 <= i < |es| => es[i].publicUrl);
    }
  }

  // The parsing loop, collecting the distinct entries.
  method ParseServers(specs: seq<ServerSpec>, urls: seq<string>)
    returns (failure: Option<Failure>, entries: set<Entry>)
    ensures failure.None? <==> Derivable(specs, urls)
    ensures failure.None? ==> entries == EntrySet(specs, urls)
  {
    entries := {};
    if |urls| != |specs| {
      return Some(LengthMismatch), {};
    }
    ghost var parsed: seq<Option<Entry>> := [];
    for idx := 0 to |specs|
      invariant parsed == Parsed(specs[..idx], urls[..idx])
      invariant entries == Somes(parsed) && AllSome(parsed)
    {
      ParsedSnoc(specs, urls, idx);
      var e := EntryAt(specs[idx], urls[idx]);
      SomesSnoc(parsed, e);
      parsed := parsed + [e];
      if e.None? {
        NotDerivable(specs, urls, idx);
        return Some(if specs[idx].Tuple? then BadTuple else BadText), {};
      }
      entries := entries + {e.value};
    }
    Whole(specs);
    Whole(urls);
    failure := if ValidPorts(entries) then None else Some(BadPort);
  }

  function UrlsFor(specs: seq<ServerSpec>, urls: seq<string>): seq<string> {
    if urls != [] then urls else seq(|specs|, _ => "")
  }

  // How each configured server reads, in order.
  function Parsed(specs: seq<ServerSpec>, urls: seq<string>): (r: seq<Option<Entry>>)
    requires |specs| == |urls|
    ensures |r| == |specs|
    ensures forall i :: 0 <= i < |specs| ==> r[i] == EntryAt(specs[i], urls[i])
  {
    seq(|specs|, i requires 0 <= i < |specs| => EntryAt(specs[i], urls[i]))
  }

  predicate AllSome<T>(xs: seq<Option<T>>) {
    forall i :: 0 <= i < |xs| ==> xs[i].Some?
  }

  function Somes<T>(xs: seq<Option<T>>): set<T> {
    set i | 0 <= i < |xs| && xs[i].Some? :: xs[i].value
  }

  lemma ParsedSnoc(specs: seq<ServerSpec>, urls: seq<string>, idx: nat)
    requires idx < |specs| == |urls|
    ensures Parsed(specs[..idx + 1], urls[..idx + 1]) ==
            Parsed(specs[..idx], urls[..idx]) + [EntryAt(specs[idx], urls[idx])]
  {
    var p, q := Parsed(specs[..idx + 1], urls[..idx + 1]), Parsed(specs[..idx], urls[..idx]);
    forall i | 0 <= i < idx ensures p[i] == q[i] {
      assert specs[..idx + 1][i] == specs[..idx][i] && urls[..idx + 1][i] == urls[..idx][i];
    }
    OneLonger(p, q, EntryAt(specs[idx], urls[idx]));
  }

  lemma NotDerivable(specs: seq<ServerSpec>, urls: seq<string>, idx: nat)
    requires idx < |specs| == |urls| && EntryAt(specs[idx], urls[idx]).None?
    ensures !Derivable(specs, urls)
  {
    assert Parsed(specs, urls)[idx].None?;
  }

  lemma SomesSnoc<T>(xs: seq<Option<T>>, x: Option<T>)
    ensures Somes(xs + [x]) == Somes(xs) + if x.Some? then {x.value} else {}
    ensures AllSome(xs + [x]) <==> AllSome(xs) && x.Some?
  {
    forall y ensures y in Somes(xs + [x]) <==> y in Somes(xs) + if x.Some? then {x.value} else {} {
      if y in Somes(xs) {
        var i :| 0 <= i < |xs| && xs[i] == Some(y);
        assert (xs + [x])[i] == Some(y);
      }
      if x == Some(y) {
        assert (xs + [x])[|xs|] == Some(y);
      }
    }
    forall i | 0 <= i < |xs| && AllSome(xs + [x]) ensures xs[i].Some? {
      assert (xs + [x])[i] == xs[i];
    }
    assert (xs + [x])[|xs|] == x;
  }

  // The distinct entries of the configuration.
  function EntrySet(specs: seq<ServerSpec>, urls: seq<string>): set<Entry> {
    if |specs| == |urls| then Somes(Parsed(specs, urls)) else {}
  }

  predicate Derivable(specs: seq<ServerSpec>, urls: seq<string>) {
    |specs| == |urls| && AllSome(Parsed(specs, urls)) && ValidPorts(EntrySet(specs, urls))
  }

  // Every index describes some configured server, and every configured server has an index.
  lemma IndicesAreEntries(parsed: seq<Option<Entry>>, es: seq<Entry>)
    requires AllSome(parsed) && Elements(es) == Somes(parsed)
    ensures forall e :: e in es <==> Some(e) in parsed
  {
    forall e ensures e in es <==> Some(e) in parsed {
      assert e in es <==> e in Elements(es);
      if Some(e) in parsed {
        var j :| 0 <= j < |parsed| && parsed[j] == Some(e);
        assert parsed[j].value in Somes(parsed);
      }
    }
  }

  // ---- the padded order is the numeric order of dotted quads ----

  predicate IsOctet(part: string) {
    1 <= |part| <= 3 && AllDigits(part)
  }

  predicate TupleLeq(ps: seq<string>, qs: seq<string>)
    requires |ps| == |qs| && (forall i :: 0 <= i < |ps| ==> IsOctet(ps[i]) && IsOctet(qs[i]))
  {
    ps == [] ||
    (assert IsOctet(ps[0]) && IsOctet(qs[0]);
     Value(ps[0]) < Value(qs[0]) || (Value(ps[0]) == Value(qs[0]) && TupleLeq(ps[1..], qs[1..])))
  }

  lemma PaddedValue(part: string)
    requires IsOctet(part)
    ensures |Padded(part)| == 3 && AllDigits(Padded(part)) && Value(Padded(part)) == Value(part)
  {
    ThreeDigits(Padded(part));
    var d := part;
    if |d| == 1 {
      assert d[..0] == "";
      assert Value(d) == DigitValue(d[0]);
      assert Padded(d) == ['0', '0', d[0]];
    } else if |d| == 2 {
      assert Value(d[..1]) == 10 * Value(d[..1][..0]) + DigitValue(d[0]);
      assert d[..1][..0] == "";
      assert Padded(d) == ['0', d[0], d[1]];
    }
  }

  lemma ThreeDigits(s: string)
    requires |s| == 3 && AllDigits(s)
    ensures Value(s) == 100 * DigitValue(s[0]) + 10 * DigitValue(s[1]) + DigitValue(s[2])
  {
    assert s[..2][..1] == s[..1] && s[..1][..0] == "";
    assert Value(s[..1]) == DigitValue(s[0]);
    assert Value(s[..2]) == 10 * Value(s[..1]) + DigitValue(s[1]);
  }

  lemma DigitOrder(a: char, b: char)
    requires IsDigit(a) && IsDigit(b)
    ensures a < b <==> DigitValue(a) < DigitValue(b)
    ensures a == b <==> DigitValue(a) == DigitValue(b)
  {
  }

  // Three-digit strings compare as their numbers do.
  lemma ThreeDigitOrder(a: string, b: string)
    requires |a| == 3 && |b| == 3 && AllDigits(a) && AllDigits(b)
    ensures LexLeq(a, b) <==> Value(a) <= Value(b)
    ensures a == b <==> Value(a) == Value(b)
  {
    ThreeDigits(a);
    ThreeDigits(b);
    DigitOrder(a[0], b[0]);
    DigitOrder(a[1], b[1]);
    DigitOrder(a[2], b[2]);
    assert a[1..][1..] == a[2..] && b[1..][1..] == b[2..];
    assert a[2..][1..] == "" && b[2..][1..] == "";
    assert LexLeq(a[2..], b[2..]) <==> a[2] <= b[2];
    assert LexLeq(a[1..], b[1..]) <==> a[1] < b[1] || (a[1] == b[1] && LexLeq(a[2..], b[2..]));
    if Value(a) == Value(b) {
      assert a == [a[0], a[1], a[2]] && b == [b[0], b[1], b[2]];
    }
  }

  // Equal-width fields are compared before what follows them.
  lemma {:induction false} LexField(p: string, q: string, r: string, t: string)
    requires |p| == |q|
    ensures LexLeq(p + r, q + t) <==> if p == q then LexLeq(r, t) else LexLeq(p, q)
  {
    if p == "" {
      assert p + r == r && q + t == t;
    } else {
      assert (p + r)[1..] == p[1..] + r && (q + t)[1..] == q[1..] + t;
      assert p == [p[0]] + p[1..] && q == [q[0]] + q[1..];
      LexField(p[1..], q[1..], r, t);
    }
  }

  // 10.0.0.2 sorts before 10.0.0.10: the key orders quads, and any lists of equally many
  // octets, by their numbers.
  lemma {:induction false} PaddedOrderIsNumeric(ps: seq<string>, qs: seq<string>)
    requires |ps| == |qs| && (forall i :: 0 <= i < |ps| ==> IsOctet(ps[i]) && IsOctet(qs[i]))
    ensures LexLeq(Join(PadAll(ps), '.'), Join(PadAll(qs), '.')) <==> TupleLeq(ps, qs)
  {
    if ps != [] {
      PaddedValue(ps[0]);
      PaddedValue(qs[0]);
      var p, q := Padded(ps[0]), Padded(qs[0]);
      ThreeDigitOrder(p, q);
      if |ps| == 1 {
        assert Join(PadAll(ps), '.') == p && Join(PadAll(qs), '.') == q;
        assert TupleLeq(ps[1..], qs[1..]);
      } else {
        PadAllStep(ps);
        PadAllStep(qs);
        var r, t := Join(PadAll(ps[1..]), '.'), Join(PadAll(qs[1..]), '.');
        LexField(p, q, "." + r, "." + t);
        LexField(".", ".", r, t);
        PaddedOrderIsNumeric(ps[1..], qs[1..]);
      }
    }
  }

  lemma PadAllStep(ps: seq<string>)
    requires |ps| > 1
    ensures Join(PadAll(ps), '.') == Padded(ps[0]) + ("." + Join(PadAll(ps[1..]), '.'))
  {
    assert PadAll(ps)[1..] == PadAll(ps[1..]);
    JoinStep(PadAll(ps), Padded(ps[0]), PadAll(ps[1..]));
  }

  lemma JoinStep(parts: seq<string>, first: string, rest: seq<string>)
    requires |parts| > 1 && parts[0] == first && parts[1..] == rest
    ensures Join(parts, '.') == first + ("." + Join(rest, '.'))
  {
    assert first + ['.'] + Join(rest, '.') == first + ("." + Join(rest, '.'));
  }

  predicate Quad(ip: string) {
    |Split(ip, '.')| == 4 && forall i :: 0 <= i < 4 ==> IsOctet(Split(ip, '.')[i])
  }

  // The derived lists are ordered by group first; within a group by address, octet by octet as
  // numbers where both are dotted quads; and at one address by the number of the port.
  lemma ListedInOrder(es: seq<Entry>, pool: set<Entry>, i: nat, j: nat)
    requires IsSortOf(es, pool) && i < j < |es|
    ensures LexLeq(es[i].group, es[j].group)
    ensures es[i].group == es[j].group && Quad(es[i].ip) && Quad(es[j].ip) ==>
              TupleLeq(Split(es[i].ip, '.'), Split(es[j].ip, '.'))
    ensures es[i].group == es[j].group && es[i].ip == es[j].ip &&
            ParseInt(es[i].port).Some? && ParseInt(es[j].port).Some? ==>
              ParseInt(es[i].port).value <= ParseInt(es[j].port).value
  {
    var a, b := es[i], es[j];
    assert KeyLeq(KeyOf(a), KeyOf(b));
    LexTotal(a.group, b.group);
    LexTotal(KeyOf(a).ip, KeyOf(b).ip);
    if a.group == b.group && Quad(a.ip) && Quad(b.ip) {
      PaddedOrderIsNumeric(Split(a.ip, '.'), Split(b.ip, '.'));
    }
  }

  // ---- defaults ----

  // A tuple is read field by field: blank fields get their defaults, and credentials need both
  // a name and a password.
  lemma TupleReads(user: string, pass: string, ip: string, port: string, group: string, url: string)
    ensures EntryAt(Tuple([user, pass, ip, port, group]), url).Some?
    ensures var e := EntryAt(Tuple([user, pass, ip, port, group]), url).value;
            && e.ip == (if Strip(ip, Whitespace) == "" then "127.0.0.1" else Strip(ip, Whitespace))
            && e.port == (if Strip(port, Whitespace) == "" then "6800" else Strip(port, Whitespace))
            && e.group == Strip(group, Whitespace) && e.publicUrl == Strip(url, SpaceOrSlash)
            && e.auth == if user == "" || pass == "" then None else Some((user, pass))
  {
  }

  // A string that is a host alone gets the default port, no credentials and no group.
  lemma HostAloneReads(host: string, url: string)
    requires host != "" && Trim(host, Whitespace) && OneLine(host) && FreeOf(host, {':', '#'})
    ensures EntryAt(Text(host), url) == Some(Entry("", host, "6800", None, Strip(url, SpaceOrSlash)))
  {
    MatchIsScan(host);
    NextAfterField(host, 0, host, {':', '#'});
    NextAfterField(host, 0, host, {':'});
    assert host[0..|host|] == host;
  }
}
