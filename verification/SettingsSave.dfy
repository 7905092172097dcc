// Saving settings: validate, persist, apply live, or roll back; and what a restart
// recomputes from the stored rows.
module SettingsSave {
  import opened NoOpSave
  import opened Options
  import opened Sequences
  import opened ServerDerivation
  import opened ServerStrings
  import opened SettingsRegistry
  import opened Texts

  const SERVERS := "SCRAPYD_SERVERS"
  const PUBLIC_URLS := "SCRAPYD_SERVERS_PUBLIC_URLS"
  const CHECK := "CHECK_SCRAPYD_SERVERS"

  datatype Source = FromDefault | FromEnv | FromDb

  type Settings = map<string, Value>

  // A save request without resets; the server rows are kept apart from the plain values.
  datatype Request = Request(changes: Settings, rows: Option<seq<ServerRow>>)

  function Strs(xs: seq<string>): Value {
    List(seq(|xs|, i requires 0 <= i < |xs| => Str(xs[i])))
  }

  // A secret that came back empty or as the sentinel means "no change".
  predicate Untouched(field: Field, v: Value) {
    field.kind.SecretK? && (v == Null || v == Str("") || v == Str(SECRET_SENTINEL))
  }

  function Kept(registry: map<string, Field>, changes: Settings): Settings {
    map k | k in changes && !(k in registry && Untouched(registry[k], changes[k])) :: changes[k]
  }

  predicate AllCoerce(registry: map<string, Field>, changes: Settings, floats: Floats) {
    forall k <- changes :: k in registry && Coerce(registry[k], changes[k], floats).Good?
  }

  function Coerced(registry: map<string, Field>, changes: Settings, floats: Floats): Settings
    requires AllCoerce(registry, changes, floats)
  {
    map k | k in changes :: Coerce(registry[k], changes[k], floats).value
  }

  // ---- the order of the servers does not depend on their public URLs ----

  function Erase(e: Entry): Entry { e.(publicUrl := "") }

  function EraseAll(es: seq<Entry>): (r: seq<Entry>)
    ensures |r| == |es| && forall i :: 0 <= i < |es| ==> r[i] == Erase(es[i])
  {
    seq(|es|, i requires 0 <= i < |es| => Erase(es[i]))
  }

  function Blank(n: nat): (r: seq<string>)
    ensures |r| == n && forall i :: 0 <= i < n ==> r[i] == ""
  {
    seq(n, _ => "")
  }

  // Every configured server reads as an entry, and no two share a sort key.
  predicate DistinctServers(specs: seq<ServerSpec>) {
    var p := Parsed(specs, Blank(|specs|));
    && AllSome(p)
    && forall i, j :: 0 <= i < j < |p| ==> KeyOf(p[i].value) != KeyOf(p[j].value)
  }

  lemma EraseEntry(spec: ServerSpec, url: string)
    ensures var e, d := EntryAt(spec, url), EntryAt(spec, "");
            (e.Some? <==> d.Some?) && (e.Some? ==> Erase(e.value) == d.value)
  {
    assert Strip("", SpaceOrSlash) == "";
  }

  lemma EraseParsed(specs: seq<ServerSpec>, urls: seq<string>, i: nat)
    requires |urls| == |specs| && i < |specs|
    ensures var p, q := Parsed(specs, urls)[i], Parsed(specs, Blank(|specs|))[i];
            (p.Some? <==> q.Some?) && (p.Some? ==> Erase(p.value) == q.value)
  {
    EraseEntry(specs[i], urls[i]);
  }

  lemma KeyOfErased(e: Entry)
    ensures KeyOf(Erase(e)) == KeyOf(e)
  {
  }

  lemma EntryOrigin(specs: seq<ServerSpec>, urls: seq<string>, e: Entry) returns (i: nat)
    requires |urls| == |specs| && e in EntrySet(specs, urls)
    ensures i < |specs| && Parsed(specs, urls)[i] == Some(e)
  {
    i :| 0 <= i < |specs| && Parsed(specs, urls)[i] == Some(e);
  }

  lemma ErasedPool(specs: seq<ServerSpec>, urls: seq<string>)
    requires |urls| == |specs| && DistinctServers(specs)
    ensures forall e :: e in EntrySet(specs, urls) ==> Erase(e) in EntrySet(specs, Blank(|specs|))
    ensures forall d :: d in EntrySet(specs, Blank(|specs|)) ==> exists e :: e in EntrySet(specs, urls) && Erase(e) == d
    ensures forall e, f :: e in EntrySet(specs, urls) && f in EntrySet(specs, urls) && e != f ==> Erase(e) != Erase(f)
    ensures DistinctSortKeys(EntrySet(specs, Blank(|specs|)))
  {
    var p, q := Parsed(specs, urls), Parsed(specs, Blank(|specs|));
    forall e | e in EntrySet(specs, urls) ensures Erase(e) in EntrySet(specs, Blank(|specs|)) {
      var i := EntryOrigin(specs, urls, e);
      EraseParsed(specs, urls, i);
      assert q[i] == Some(Erase(e));
    }
    forall d | d in EntrySet(specs, Blank(|specs|)) ensures exists e :: e in EntrySet(specs, urls) && Erase(e) == d {
      var i := EntryOrigin(specs, Blank(|specs|), d);
      EraseParsed(specs, urls, i);
      assert p[i].value in EntrySet(specs, urls) && Erase(p[i].value) == d;
    }
    forall e, f | e in EntrySet(specs, urls) && f in EntrySet(specs, urls) && e != f ensures Erase(e) != Erase(f) {
      var i := EntryOrigin(specs, urls, e);
      var j := EntryOrigin(specs, urls, f);
      EraseParsed(specs, urls, i);
      EraseParsed(specs, urls, j);
      assert i < j || j < i;
    }
    forall a, b | a in EntrySet(specs, Blank(|specs|)) && b in EntrySet(specs, Blank(|specs|)) && a != b
      ensures KeyOf(a) != KeyOf(b)
    {
      var i := EntryOrigin(specs, Blank(|specs|), a);
      var j := EntryOrigin(specs, Blank(|specs|), b);
      assert i < j || j < i;
    }
  }

  lemma ErasedMembers(specs: seq<ServerSpec>, urls: seq<string>, es: seq<Entry>, d: Entry)
    requires |urls| == |specs| && DistinctServers(specs) && Elements(es) == EntrySet(specs, urls)
    ensures d in Elements(EraseAll(es)) <==> d in EntrySet(specs, Blank(|specs|))
  {
    ErasedPool(specs, urls);
    if d in Elements(EraseAll(es)) {
      var i :| 0 <= i < |es| && EraseAll(es)[i] == d;
      assert es[i] in Elements(es);
    }
    if d in EntrySet(specs, Blank(|specs|)) {
      var e :| e in EntrySet(specs, urls) && Erase(e) == d;
      assert e in Elements(es);
      var i :| 0 <= i < |es| && es[i] == e;
      assert EraseAll(es)[i] == d;
    }
  }

  lemma ErasedOrder(specs: seq<ServerSpec>, urls: seq<string>, es: seq<Entry>, i: nat, j: nat)
    requires |urls| == |specs| && DistinctServers(specs) && IsSortOf(es, EntrySet(specs, urls)) && i < j < |es|
    ensures KeyLeq(KeyOf(Erase(es[i])), KeyOf(Erase(es[j]))) && Erase(es[i]) != Erase(es[j])
  {
    ErasedPool(specs, urls);
    KeyOfErased(es[i]);
    KeyOfErased(es[j]);
    assert es[i] in Elements(es) && es[j] in Elements(es) && es[i] != es[j];
  }

  lemma ErasedSort(specs: seq<ServerSpec>, urls: seq<string>, es: seq<Entry>)
    requires |urls| == |specs| && DistinctServers(specs) && IsSortOf(es, EntrySet(specs, urls))
    ensures IsSortOf(EraseAll(es), EntrySet(specs, Blank(|specs|)))
  {
    forall i, j | 0 <= i < j < |EraseAll(es)|
      ensures KeyLeq(KeyOf(EraseAll(es)[i]), KeyOf(EraseAll(es)[j])) && EraseAll(es)[i] != EraseAll(es)[j]
    {
      ErasedOrder(specs, urls, es, i, j);
    }
    forall d ensures d in Elements(EraseAll(es)) <==> d in EntrySet(specs, Blank(|specs|)) {
      ErasedMembers(specs, urls, es, d);
    }
  }

  // Two derivations of the same raw servers list the same servers in the same order,
  // whatever public URLs they were zipped with.
  lemma UrlsDoNotMoveServers(specs: seq<ServerSpec>, u: seq<string>, a: seq<Entry>, v: seq<string>, b: seq<Entry>)
    requires |u| == |specs| == |v| && DistinctServers(specs)
    requires IsSortOf(a, EntrySet(specs, u)) && IsSortOf(b, EntrySet(specs, v))
    ensures EraseAll(a) == EraseAll(b)
    ensures HostPorts(a) == HostPorts(b) && Groups(a) == Groups(b) && Auths(a) == Auths(b)
  {
    ErasedSort(specs, u, a);
    ErasedSort(specs, v, b);
    SortIsUnique(EraseAll(a), EraseAll(b), EntrySet(specs, Blank(|specs|)));
    assert |a| == |EraseAll(a)| == |b|;
    forall i | 0 <= i < |a| ensures Erase(a[i]) == Erase(b[i]) {
      assert EraseAll(a)[i] == EraseAll(b)[i];
    }
  }

  // ---- what a save does to the application's state ----

  datatype Config = Config(
    registry: map<string, Field>,
    bootstrap: set<string>,
    floats: Floats,
    invalid: (string, Settings) -> bool)  // a field's own validator against the merged settings

  datatype AppState = AppState(
    stored: Settings,             // rows of the setting table
    live: Settings,               // the plain keys of app.state.settings
    raw: seq<ServerSpec>,         // _SCRAPYD_SERVERS
    servers: seq<ServerSpec>,     // the four live server lists
    groups: seq<string>,
    auths: seq<Auth>,
    publicUrls: seq<string>)

  function HostPortTexts(servers: seq<ServerSpec>): (r: seq<string>)
    ensures |r| == |servers|
  {
    seq(|servers|, i requires 0 <= i < |servers| => if servers[i].Text? then servers[i].text else "")
  }

  predicate Derivation(specs: seq<ServerSpec>, urls: seq<string>) {
    Derivable(specs, UrlsFor(specs, urls))
  }

  // es is the canonical listing of these servers zipped with these URLs.
  predicate DerivesTo(specs: seq<ServerSpec>, urls: seq<string>, es: seq<Entry>) {
    Derivation(specs, urls) && IsSortOf(es, EntrySet(specs, UrlsFor(specs, urls)))
  }

  // The rows a save writes: the values, and for servers the full strings beside their URLs.
  function WithServers(plain: Settings, texts: seq<string>, urls: seq<string>): Settings {
    if texts == [] then plain else plain[SERVERS := Strs(texts)][PUBLIC_URLS := Strs(urls)]
  }

  predicate Convertible(c: Config, k: string, v: Value) {
    k in c.registry && Coerce(c.registry[k], v, c.floats).Good?
  }

  predicate Acceptable(c: Config, live: Settings, changes: Settings) {
    && AllCoerce(c.registry, changes, c.floats)
    && forall k <- changes :: !c.invalid(k, live + Coerced(c.registry, changes, c.floats))
  }

  predicate KnownKeys(c: Config, request: Request) {
    && (forall k <- request.changes :: k !in c.bootstrap && k in c.registry && k != SERVERS)
    && (request.rows.Some? ==> SERVERS !in c.bootstrap && SERVERS in c.registry)
  }

  predicate RowsAcceptable(request: Request) {
    request.rows.Some? ==> request.rows.value != [] && AllAccepted(request.rows.value)
  }

  // The server strings and public URLs of a request, under the credentials held now.
  function TextsOf(s: AppState, request: Request): seq<string> {
    if request.rows.None? then [] else PrintedRows(request.rows.value, HostPortTexts(s.servers), s.auths)
  }

  function UrlsOf(request: Request): seq<string> {
    if request.rows.None? then [] else PublicUrls(request.rows.value)
  }

  // The raw strings win over the derived list.
  function SpecsToDerive(raw: seq<ServerSpec>, servers: seq<ServerSpec>): seq<ServerSpec> {
    if raw != [] then raw else servers
  }

  // The server lists can be derived again, if the changes touch them.
  predicate CanDerive(s: AppState, changes: Settings, texts: seq<string>, urls: seq<string>) {
    if texts != [] then Derivation(Specs(texts), urls)
    else CHECK in changes ==> Derivation(SpecsToDerive(s.raw, s.servers), s.publicUrls)
  }

  predicate Accepted(c: Config, s: AppState, request: Request) {
    var kept := Kept(c.registry, request.changes);
    && KnownKeys(c, request) && RowsAcceptable(request) && Acceptable(c, s.live, kept)
    && CanDerive(s, kept, TextsOf(s, request), UrlsOf(request))
  }

  predicate Shows(s: AppState, es: seq<Entry>) {
    s.servers == Specs(HostPorts(es)) && s.groups == Groups(es) && s.auths == Auths(es)
  }

  // The server lists after accepted changes: derived from the submitted strings, beside the
  // submitted URLs in their submitted order; or derived again from the raw strings zipped with
  // the live URLs; or left alone.
  ghost predicate ServersAfter(s: AppState, changes: Settings, texts: seq<string>, urls: seq<string>, t: AppState) {
    if texts != [] then
      && t.raw == Specs(texts) && t.publicUrls == urls
      && exists es :: DerivesTo(t.raw, urls, es) && Shows(t, es)
    else if CHECK in changes then
      && t.raw == s.raw
      && exists es :: DerivesTo(SpecsToDerive(s.raw, s.servers), s.publicUrls, es) && Shows(t, es)
                      && t.publicUrls == Urls(es)
    else
      t.(stored := s.stored, live := s.live) == s
  }

  lemma OnlyListsMatter(s: AppState, changes: Settings, texts: seq<string>, urls: seq<string>, t: AppState, u: AppState)
    requires ServersAfter(s, changes, texts, urls, t) && t.(live := u.live) == u
    ensures ServersAfter(s, changes, texts, urls, u)
  {
    if texts != [] {
      var es :| DerivesTo(t.raw, urls, es) && Shows(t, es);
      assert Shows(u, es);
    } else if CHECK in changes {
      var es :|
        DerivesTo(SpecsToDerive(s.raw, s.servers), s.publicUrls, es) && Shows(t, es) && t.publicUrls == Urls(es);
      assert Shows(u, es);
    }
  }

  // One save: a refused one changes nothing; an accepted one stores the coerced values and the
  // server strings and makes them live.
  ghost predicate Saved(c: Config, s: AppState, request: Request, t: AppState) {
    if !Accepted(c, s, request) then t == s
    else
      var kept, texts, urls := Kept(c.registry, request.changes), TextsOf(s, request), UrlsOf(request);
      var plain := Coerced(c.registry, kept, c.floats);
      && t.stored == s.stored + WithServers(plain, texts, urls)
      && t.live == s.live + plain
      && ServersAfter(s, kept, texts, urls, t)
  }

  // ---- the running application ----

  class SettingsApp {
    const config: Config
    const lists: ServerSettings   // the server lists of app.state.settings
    var stored: Settings
    var live: Settings
    var sources: map<string, Source>
    var pendingRestart: set<string>

    constructor (config: Config, lists: ServerSettings, stored: Settings, live: Settings)
      ensures this.config == config && this.lists == lists && this.stored == stored && this.live == live
    {
      this.config, this.lists, this.stored, this.live := config, lists, stored, live;
      sources, pendingRestart := map[], {};
    }

    ghost function State(): AppState
      reads this, lists
    {
      AppState(stored, live, lists.raw, lists.servers, lists.groups, lists.auths, lists.publicUrls)
    }

    // The live assignments, key by key.
    method Mutate(changes: Settings)
      modifies this`live, this`sources, this`pendingRestart
      ensures live == old(live) + changes
      ensures sources == old(sources) + AllFromDb(changes.Keys)
      ensures pendingRestart == old(pendingRestart) + RestartKeys(config.registry, changes.Keys)
      ensures forall k :: k in pendingRestart <==>
                k in old(pendingRestart) || (k in changes && k in config.registry && config.registry[k].restart)
      ensures forall k <- changes :: k in sources && sources[k] == FromDb
    {
      var keys := changes.Keys;
      ghost var done: set<string> := {};
      ghost var before := Stores(live, sources, pendingRestart);
      NothingDone(changes, config.registry, before);
      while keys != {}
        invariant keys !! done && keys + done == changes.Keys
        invariant Stores(live, sources, pendingRestart) == Mutated(changes, config.registry, before, done)
        decreases keys
      {
        var key :| key in keys;
        OneMoreKey(changes, config.registry, before, done, key);
        live := live[key := changes[key]];
        sources := sources[key := FromDb];
        if key in config.registry && config.registry[key].restart {
          pendingRestart := pendingRestart + {key};
        }
        keys := keys - {key};
        done := done + {key};
      }
      assert done == changes.Keys;
      AllDone(changes, config.registry, before);
    }

    // check_scrapyd_servers on a candidate; the live lists change only when it succeeds.
    method Derive(raw: seq<ServerSpec>, urls: seq<string>) returns (ok: bool, ghost es: seq<Entry>)
      modifies lists`servers, lists`groups, lists`auths, lists`publicUrls
      ensures ok <==> Derivation(SpecsToDerive(raw, old(lists.servers)), urls)
      ensures ok ==> DerivesTo(SpecsToDerive(raw, old(lists.servers)), urls, es)
      ensures ok ==> lists.servers == Specs(HostPorts(es)) && lists.groups == Groups(es)
      ensures ok ==> lists.auths == Auths(es) && lists.publicUrls == Urls(es)
      ensures !ok ==> unchanged(lists)
    {
      var failure, servers, groups, auths, publicUrls;
      failure, servers, groups, auths, publicUrls, es := Check(raw, lists.servers, urls);
      ok := failure.None?;
      if ok {
        lists.servers, lists.groups, lists.auths, lists.publicUrls := servers, groups, auths, publicUrls;
      }
    }

    // Submitted servers: the lists are derived, and the submitted URLs replace the derived ones
    // in the submitted order.
    method DeriveSubmitted(texts: seq<string>, urls: seq<string>) returns (ok: bool)
      requires texts != []
      modifies lists
      ensures ok <==> Derivation(Specs(texts), urls)
      ensures !ok ==> unchanged(lists)
      ensures ok ==> lists.raw == Specs(texts) && lists.publicUrls == urls
      ensures ok ==> exists es :: DerivesTo(lists.raw, urls, es) && Shows(State(), es)
    {
      ghost var es;
      ok, es := Derive(Specs(texts), urls);
      if ok {
        lists.raw := Specs(texts);
        lists.publicUrls := urls;
        assert DerivesTo(lists.raw, urls, es) && Shows(State(), es);
      }
    }

    // The connectivity check is switched: the lists are derived from what there is.
    method DeriveAgain() returns (ok: bool)
      modifies lists`servers, lists`groups, lists`auths, lists`publicUrls
      ensures ok <==> Derivation(SpecsToDerive(lists.raw, old(lists.servers)), old(lists.publicUrls))
      ensures !ok ==> unchanged(lists)
      ensures ok ==> exists es ::
                DerivesTo(SpecsToDerive(lists.raw, old(lists.servers)), old(lists.publicUrls), es) &&
                Shows(State(), es) && lists.publicUrls == Urls(es)
    {
      ghost var es;
      ok, es := Derive(lists.raw, lists.publicUrls);
      assert ok ==> Shows(State(), es) && lists.publicUrls == Urls(es);
    }

    method DeriveIfNeeded(changes: Settings, texts: seq<string>, urls: seq<string>) returns (ok: bool)
      modifies lists
      ensures ok <==> CanDerive(old(State()), changes, texts, urls)
      ensures !ok ==> unchanged(lists)
      ensures ok ==> ServersAfter(old(State()), changes, texts, urls, State())
    {
      ok := true;
      if texts != [] {
        ok := DeriveSubmitted(texts, urls);
      } else if CHECK in changes {
        ok := DeriveAgain();
      }
    }

    // The derivation comes first, which is the only thing that can fail; then everything is
    // set live.
    method ApplyChanges(changes: Settings, texts: seq<string>, urls: seq<string>) returns (ok: bool)
      modifies this`live, this`sources, this`pendingRestart, lists
      ensures ok <==> CanDerive(old(State()), changes, texts, urls)
      ensures !ok ==> unchanged(this) && unchanged(lists)
      ensures ok ==> live == old(live) + changes
      ensures ok ==> ServersAfter(old(State()), changes, texts, urls, State())
    {
      ghost var before := State();
      ok := DeriveIfNeeded(changes, texts, urls);
      if ok {
        ghost var derived := State();
        Mutate(changes);
        if texts != [] {
          sources := sources[PUBLIC_URLS := FromDb][SERVERS := FromDb];
        }
        OnlyListsMatter(before, changes, texts, urls, derived, State());
      }
    }

    // Coerces the submitted values key by key, then runs the fields' own validators. An
    // OverflowError ends the request as a validation error does: nothing has been written.
    method ValidateChanges(changes: Settings) returns (valid: bool, coerced: Settings)
      ensures valid <==> Acceptable(config, live, changes)
      ensures valid ==> coerced == Coerced(config.registry, changes, config.floats)
    {
      var keys := changes.Keys;
      coerced, valid := changes, true;
      while keys != {}
        invariant keys <= changes.Keys && coerced.Keys == changes.Keys
        invariant valid <==> forall k :: k in changes.Keys - keys ==> Convertible(config, k, changes[k])
        invariant valid ==> forall k :: k in changes.Keys ==>
                    coerced[k] == if k in keys then changes[k]
                                  else Coerce(config.registry[k], changes[k], config.floats).value
        decreases keys
      {
        var key :| key in keys;
        if Convertible(config, key, changes[key]) {
          coerced := coerced[key := Coerce(config.registry[key], changes[key], config.floats).value];
        } else {
          valid := false;
        }
        keys := keys - {key};
      }
      if valid {
        assert AllCoerce(config.registry, changes, config.floats);
        assert coerced == Coerced(config.registry, changes, config.floats);
        valid := forall k <- changes :: !config.invalid(k, live + coerced);
      } else {
        var bad :| bad in changes && !Convertible(config, bad, changes[bad]);
      }
    }

    // Everything that is decided before the first write.
    method Prepare(request: Request) returns (ok: bool, coerced: Settings, strings: seq<string>, publics: seq<string>)
      ensures var kept := Kept(config.registry, request.changes);
              && (ok <==> KnownKeys(config, request) && RowsAcceptable(request) && Acceptable(config, live, kept))
              && (ok ==> coerced == Coerced(config.registry, kept, config.floats))
      ensures ok ==> strings == TextsOf(State(), request) && publics == UrlsOf(request)
    {
      ok, coerced, strings, publics := KnownKeys(config, request), map[], [], [];
      if !ok {
        return;
      }
      if request.rows.Some? {
        var printed := SerializeServerRows(request.rows.value, HostPortTexts(lists.servers), lists.auths);
        if printed.Error? {
          ok := false;
          return;
        }
        strings, publics := printed.value.0, printed.value.1;
      }
      ok, coerced := ValidateChanges(Kept(config.registry, request.changes));
    }

    // Writes the rows, applies them, and puts the prior rows back when that fails.
    method PersistAndApply(coerced: Settings, strings: seq<string>, publics: seq<string>) returns (ok: bool)
      modifies this, lists
      ensures ok <==> CanDerive(old(State()), coerced, strings, publics)
      ensures !ok ==> State() == old(State())
      ensures ok ==> stored == old(stored) + WithServers(coerced, strings, publics)
      ensures ok ==> live == old(live) + coerced
      ensures ok ==> ServersAfter(old(State()), coerced, strings, publics, State())
    {
      var toStore := WithServers(coerced, strings, publics);
      var prior := stored;
      stored := stored + toStore;
      ok := ApplyChanges(coerced, strings, publics);
      if !ok {
        RollbackRestores(prior, toStore);
        stored := stored + Overwritten(prior, toStore);
        stored := stored - Added(prior, toStore);
      }
    }

    // The whole request. A refused save leaves the stored rows and the live settings as they
    // were, whether it was refused before or after the rows were written.
    method Save(request: Request) returns (ok: bool)
      modifies this, lists
      ensures ok <==> Accepted(config, old(State()), request)
      ensures Saved(config, old(State()), request, State())
    {
      ghost var s := State();
      var coerced, strings, publics;
      ok, coerced, strings, publics := Prepare(request);
      if ok {
        SameChanges(config, s, request, strings, publics);
        ok := PersistAndApply(coerced, strings, publics);
        SameServers(config, s, request, strings, publics, State());
      }
    }
  }

  // Coercion keeps the keys, so it does not matter for the servers whether it has happened.
  lemma SameChanges(c: Config, s: AppState, request: Request, texts: seq<string>, urls: seq<string>)
    requires AllCoerce(c.registry, Kept(c.registry, request.changes), c.floats)
    ensures var kept := Kept(c.registry, request.changes);
            CanDerive(s, Coerced(c.registry, kept, c.floats), texts, urls) == CanDerive(s, kept, texts, urls)
  {
  }

  lemma SameServers(c: Config, s: AppState, request: Request, texts: seq<string>, urls: seq<string>, t: AppState)
    requires AllCoerce(c.registry, Kept(c.registry, request.changes), c.floats)
    ensures var kept := Kept(c.registry, request.changes);
            ServersAfter(s, Coerced(c.registry, kept, c.floats), texts, urls, t) ==
            ServersAfter(s, kept, texts, urls, t)
  {
  }

  // check_scrapyd_servers on a dictionary of its own.
  method Check(raw: seq<ServerSpec>, current: seq<ServerSpec>, urls: seq<string>)
    returns (failure: Option<Failure>, servers: seq<ServerSpec>, groups: seq<string>, auths: seq<Auth>,
             publicUrls: seq<string>, ghost es: seq<Entry>)
    ensures failure.None? <==> Derivation(SpecsToDerive(raw, current), urls)
    ensures failure.None? ==> DerivesTo(SpecsToDerive(raw, current), urls, es)
    ensures failure.None? ==> servers == Specs(HostPorts(es)) && groups == Groups(es)
    ensures failure.None? ==> auths == Auths(es) && publicUrls == Urls(es)
  {
    var candidate := new ServerSettings(raw, current, urls);
    assert candidate.Configured() == SpecsToDerive(raw, current);
    failure, es := candidate.CheckScrapydServers();
    servers, groups, auths := candidate.servers, candidate.groups, candidate.auths;
    publicUrls := candidate.publicUrls;
    if failure.None? {
      DescribedLists(candidate, es);
    }
  }

  lemma DescribedLists(c: ServerSettings, es: seq<Entry>)
    requires c.Describes(es)
    ensures c.servers == Specs(HostPorts(es)) && c.groups == Groups(es) && c.auths == Auths(es)
    ensures c.publicUrls == Urls(es)
  {
    assert |Specs(HostPorts(es))| == |es|;
    forall i | 0 <= i < |es| ensures c.servers[i] == Specs(HostPorts(es))[i] {
      assert HostPorts(es)[i] == es[i].ip + ":" + es[i].port;
    }
  }

  function Overwritten(prior: Settings, toStore: Settings): Settings {
    map k | k in toStore && k in prior :: prior[k]
  }

  function Added(prior: Settings, toStore: Settings): set<string> {
    set k | k in toStore && k !in prior
  }

  lemma RollbackRestores(prior: Settings, toStore: Settings)
    ensures prior + toStore + Overwritten(prior, toStore) - Added(prior, toStore) == prior
  {
  }

  // ---- the live assignments ----

  function AllFromDb(keys: set<string>): map<string, Source> {
    map k | k in keys :: FromDb
  }

  function RestartKeys(registry: map<string, Field>, keys: set<string>): set<string> {
    set k | k in keys && k in registry && registry[k].restart
  }

  function Only(m: Settings, keys: set<string>): Settings {
    map k | k in m && k in keys :: m[k]
  }

  datatype Stores = Stores(live: Settings, sources: map<string, Source>, pending: set<string>)

  // The three stores after the keys in done have been handled.
  function Mutated(changes: Settings, registry: map<string, Field>, before: Stores, done: set<string>): Stores {
    Stores(before.live + Only(changes, done), before.sources + AllFromDb(done),
           before.pending + RestartKeys(registry, done))
  }

  lemma NothingDone(changes: Settings, registry: map<string, Field>, before: Stores)
    ensures Mutated(changes, registry, before, {}) == before
  {
    assert before.live + Only(changes, {}) == before.live;
    assert before.sources + AllFromDb({}) == before.sources;
  }

  lemma AllDone(changes: Settings, registry: map<string, Field>, before: Stores)
    ensures Mutated(changes, registry, before, changes.Keys).live == before.live + changes
  {
    assert Only(changes, changes.Keys) == changes;
  }

  lemma OneMoreKey(changes: Settings, registry: map<string, Field>, before: Stores, done: set<string>, key: string)
    requires key in changes
    ensures var s := Mutated(changes, registry, before, done);
            Mutated(changes, registry, before, done + {key}) ==
            Stores(s.live[key := changes[key]], s.sources[key := FromDb],
                   if key in registry && registry[key].restart then s.pending + {key} else s.pending)
  {
    assert Only(changes, done + {key}) == Only(changes, done)[key := changes[key]];
    assert AllFromDb(done + {key}) == AllFromDb(done)[key := FromDb];
    PlusUpdate(before.live, Only(changes, done), key, changes[key]);
    PlusUpdate(before.sources, AllFromDb(done), key, FromDb);
    MoreRestartKeys(registry, before.pending, done, key);
  }

  lemma MoreRestartKeys(registry: map<string, Field>, pending: set<string>, done: set<string>, key: string)
    ensures pending + RestartKeys(registry, done + {key}) ==
            if key in registry && registry[key].restart then pending + RestartKeys(registry, done) + {key}
            else pending + RestartKeys(registry, done)
  {
  }

  lemma PlusUpdate<K, V>(a: map<K, V>, b: map<K, V>, k: K, v: V)
    ensures (a + b)[k := v] == a + b[k := v]
  {
  }
}
