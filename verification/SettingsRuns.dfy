// Any number of saves, and what a restart reads back.
module SettingsRuns {
  import opened NoOpSave
  import opened Options
  import opened Sequences
  import opened ServerDerivation
  import opened ServerPattern
  import opened ServerStrings
  import opened SettingsRegistry
  import opened SettingsSave
  import opened Texts

  // ---- runs ----

  ghost predicate SavedAt(c: Config, requests: seq<Request>, trace: seq<AppState>, i: nat)
    requires i < |requests| < |trace|
  {
    Saved(c, trace[i], requests[i], trace[i + 1])
  }

  // Each state comes from the one before it by the next request, accepted or refused.
  ghost predicate IsSaveRun(c: Config, requests: seq<Request>, trace: seq<AppState>) {
    && |trace| == |requests| + 1
    && forall i :: 0 <= i < |requests| ==> SavedAt(c, requests, trace, i)
  }

  ghost predicate Answers(c: Config, requests: seq<Request>, trace: seq<AppState>, oks: seq<bool>) {
    && |oks| == |requests| <= |trace|
    && forall i :: 0 <= i < |oks| ==> (oks[i] <==> Accepted(c, trace[i], requests[i]))
  }

  lemma RunSnoc(c: Config, requests: seq<Request>, n: nat, trace: seq<AppState>, t: AppState)
    requires n < |requests| && IsSaveRun(c, requests[..n], trace) && Saved(c, trace[n], requests[n], t)
    ensures IsSaveRun(c, requests[..n + 1], trace + [t])
  {
    var more, states := requests[..n + 1], trace + [t];
    forall i | 0 <= i < n ensures SavedAt(c, more, states, i) {
      assert SavedAt(c, requests[..n], trace, i);
      assert more[i] == requests[..n][i] && states[i] == trace[i] && states[i + 1] == trace[i + 1];
    }
    assert SavedAt(c, more, states, n);
  }

  lemma AnswersSnoc(c: Config, requests: seq<Request>, n: nat, trace: seq<AppState>, oks: seq<bool>, t: AppState,
                    ok: bool)
    requires n < |requests| && |trace| == n + 1 && Answers(c, requests[..n], trace, oks)
    requires ok <==> Accepted(c, trace[n], requests[n])
    ensures Answers(c, requests[..n + 1], trace + [t], oks + [ok])
  {
    var more, states := requests[..n + 1], trace + [t];
    forall i | 0 <= i < |oks + [ok]| ensures (oks + [ok])[i] <==> Accepted(c, states[i], more[i]) {
      assert i < n ==> more[i] == requests[..n][i] && states[i] == trace[i];
    }
  }

  // What every save of an allowed kind keeps, every run of such saves keeps.
  lemma {:induction false} RunInvariant(c: Config, requests: seq<Request>, trace: seq<AppState>, m: nat, n: nat,
                                        inv: AppState -> bool, allowed: Request -> bool)
    requires IsSaveRun(c, requests, trace) && m <= n <= |requests|
    requires forall i :: m <= i < n ==> allowed(requests[i])
    requires forall s: AppState, request: Request, t: AppState ::
               inv(s) && allowed(request) && Saved(c, s, request, t) ==> inv(t)
    requires inv(trace[m])
    ensures inv(trace[n])
    decreases n
  {
    if n > m {
      RunInvariant(c, requests, trace, m, n - 1, inv, allowed);
      assert SavedAt(c, requests, trace, n - 1);
    }
  }

  // Any number of saves; oks are the answers and trace the states in between.
  method RunSaves(app: SettingsApp, requests: seq<Request>) returns (oks: seq<bool>, ghost trace: seq<AppState>)
    modifies app, app.lists
    ensures IsSaveRun(app.config, requests, trace) && Answers(app.config, requests, trace, oks)
    ensures trace[0] == old(app.State()) && trace[|requests|] == app.State()
  {
    oks, trace := [], [app.State()];
    for n := 0 to |requests|
      invariant IsSaveRun(app.config, requests[..n], trace) && Answers(app.config, requests[..n], trace, oks)
      invariant trace[0] == old(app.State()) && trace[n] == app.State()
    {
      var ok := app.Save(requests[n]);
      AnswersSnoc(app.config, requests, n, trace, oks, app.State(), ok);
      RunSnoc(app.config, requests, n, trace, app.State());
      oks, trace := oks + [ok], trace + [app.State()];
    }
    Whole(requests);
  }

  function EditedBy(c: Config, request: Request): set<string> {
    Kept(c.registry, request.changes).Keys + if request.rows.Some? then {SERVERS} else {}
  }

  ghost function EditedOn(c: Config, s: AppState, request: Request): set<string> {
    if Accepted(c, s, request) then EditedBy(c, request) else {}
  }

  function Union(sets: seq<set<string>>): set<string> {
    if sets == [] then {} else Union(sets[..|sets| - 1]) + sets[|sets| - 1]
  }

  lemma {:induction false} UnionHolds(sets: seq<set<string>>, i: nat)
    requires i < |sets|
    ensures sets[i] <= Union(sets)
  {
    if i < |sets| - 1 {
      UnionHolds(sets[..|sets| - 1], i);
    }
  }

  // What each request of a run has edited.
  ghost function EditedSets(c: Config, requests: seq<Request>, trace: seq<AppState>): (r: seq<set<string>>)
    requires |requests| <= |trace|
    ensures |r| == |requests| && forall i :: 0 <= i < |r| ==> r[i] == EditedOn(c, trace[i], requests[i])
  {
    seq(|requests|, i requires 0 <= i < |requests| => EditedOn(c, trace[i], requests[i]))
  }

  // ---- what every run keeps ----

  // Each edited key is stored in a form that startup accepts, and is live as stored.
  ghost predicate PlainFaithful(c: Config, edited: set<string>, stored: Settings, live: Settings) {
    forall k <- edited :: k != SERVERS ==>
      && k in c.registry && k in stored && k in live && live[k] == stored[k]
      && InType(c.registry[k], stored[k])
  }

  // The live lists are a derivation of the raw strings, for some pairing with URLs.
  ghost predicate DerivedFrom(s: AppState) {
    exists urls, es :: |urls| == |s.raw| && IsSortOf(es, EntrySet(s.raw, urls)) && Shows(s, es)
  }

  // The raw strings are stored beside a URL for each.
  ghost predicate StoredServers(c: Config, s: AppState) {
    && SERVERS in c.registry && SERVERS in s.stored && PUBLIC_URLS in s.stored
    && exists texts, urls :: StoredAs(s, texts, urls)
  }

  ghost predicate StoredAs(s: AppState, texts: seq<string>, urls: seq<string>) {
    && |texts| == |urls| > 0 && s.raw == Specs(texts) && Derivable(s.raw, urls)
    && SERVERS in s.stored && s.stored[SERVERS] == Strs(texts)
    && PUBLIC_URLS in s.stored && s.stored[PUBLIC_URLS] == Strs(urls)
  }

  ghost predicate Faithful(c: Config, edited: set<string>, s: AppState) {
    && PlainFaithful(c, edited, s.stored, s.live)
    && (SERVERS in edited ==> StoredServers(c, s) && DerivedFrom(s))
  }

  lemma Names()
    ensures SERVERS != PUBLIC_URLS && SERVERS != CHECK && PUBLIC_URLS != CHECK
  {
    assert |SERVERS| != |PUBLIC_URLS| && |SERVERS| != |CHECK| && |PUBLIC_URLS| != |CHECK|;
  }

  lemma PlainStaysFaithful(c: Config, edited: set<string>, kept: Settings, stored: Settings, live: Settings,
                           texts: seq<string>, urls: seq<string>)
    requires PUBLIC_URLS !in c.registry && AllCoerce(c.registry, kept, c.floats)
    requires PlainFaithful(c, edited, stored, live)
    ensures var plain := Coerced(c.registry, kept, c.floats);
            PlainFaithful(c, edited + kept.Keys + {SERVERS}, stored + WithServers(plain, texts, urls), live + plain)
  {
    Names();
    forall k | k in kept ensures InType(c.registry[k], Coerced(c.registry, kept, c.floats)[k]) {
      CoercedInType(c.registry[k], kept[k], c.floats);
    }
  }

  lemma NewServersStored(c: Config, s: AppState, before: Settings, plain: Settings, texts: seq<string>,
                         urls: seq<string>)
    requires SERVERS in c.registry && |texts| == |urls| > 0 && Derivation(Specs(texts), urls) && s.raw == Specs(texts)
    requires s.stored == before + WithServers(plain, texts, urls)
    ensures StoredServers(c, s)
  {
    Names();
    assert StoredAs(s, texts, urls);
  }

  lemma OldServersStored(c: Config, s: AppState, t: AppState, plain: Settings)
    requires StoredServers(c, s) && SERVERS !in plain && PUBLIC_URLS !in plain
    requires t.stored == s.stored + plain && t.raw == s.raw
    ensures StoredServers(c, t) && t.raw != []
  {
    var texts, urls :| StoredAs(s, texts, urls);
    assert StoredAs(t, texts, urls);
  }

  lemma NewlyDerived(s: AppState, urls: seq<string>, es: seq<Entry>)
    requires DerivesTo(s.raw, urls, es) && Shows(s, es)
    ensures DerivedFrom(s)
  {
    assert |UrlsFor(s.raw, urls)| == |s.raw| && IsSortOf(es, EntrySet(s.raw, UrlsFor(s.raw, urls)));
  }

  lemma StillDerived(s: AppState, changes: Settings, t: AppState)
    requires DerivedFrom(s) && s.raw != [] && ServersAfter(s, changes, [], [], t)
    ensures DerivedFrom(t)
  {
    if CHECK in changes {
      var es :|
        DerivesTo(SpecsToDerive(s.raw, s.servers), s.publicUrls, es) && Shows(t, es) && t.publicUrls == Urls(es);
      NewlyDerived(t, s.publicUrls, es);
    } else {
      var urls, es :| |urls| == |s.raw| && IsSortOf(es, EntrySet(s.raw, urls)) && Shows(s, es);
      assert Shows(t, es);
    }
  }

  lemma ServersStayFaithful(c: Config, edited: set<string>, s: AppState, request: Request, t: AppState)
    requires PUBLIC_URLS !in c.registry && Accepted(c, s, request) && Saved(c, s, request, t)
    requires SERVERS in edited ==> StoredServers(c, s) && DerivedFrom(s)
    ensures SERVERS in edited + EditedBy(c, request) ==> StoredServers(c, t) && DerivedFrom(t)
  {
    var kept, texts, urls := Kept(c.registry, request.changes), TextsOf(s, request), UrlsOf(request);
    var plain := Coerced(c.registry, kept, c.floats);
    if request.rows.Some? {
      var es :| DerivesTo(t.raw, urls, es) && Shows(t, es);
      NewServersStored(c, t, s.stored, plain, texts, urls);
      NewlyDerived(t, urls, es);
    } else if SERVERS in edited {
      OldServersStored(c, s, t, plain);
      StillDerived(s, kept, t);
    }
  }

  lemma SaveStaysFaithful(c: Config, edited: set<string>, s: AppState, request: Request, t: AppState)
    requires PUBLIC_URLS !in c.registry && Faithful(c, edited, s) && Saved(c, s, request, t)
    ensures Faithful(c, edited + EditedOn(c, s, request), t)
  {
    if Accepted(c, s, request) {
      PlainStaysFaithful(c, edited, Kept(c.registry, request.changes), s.stored, s.live, TextsOf(s, request),
                         UrlsOf(request));
      ServersStayFaithful(c, edited, s, request, t);
    }
  }

  lemma {:induction false} RunIsFaithful(c: Config, requests: seq<Request>, trace: seq<AppState>, n: nat)
    requires PUBLIC_URLS !in c.registry && IsSaveRun(c, requests, trace) && n <= |requests|
    ensures Faithful(c, Union(EditedSets(c, requests, trace)[..n]), trace[n])
  {
    if n > 0 {
      var sets := EditedSets(c, requests, trace);
      RunIsFaithful(c, requests, trace, n - 1);
      assert SavedAt(c, requests, trace, n - 1);
      Snoc(sets, n - 1);
      SaveStaysFaithful(c, Union(sets[..n - 1]), trace[n - 1], requests[n - 1], trace[n]);
    }
  }

  lemma EditsAreFaithful(c: Config, requests: seq<Request>, trace: seq<AppState>, i: nat, k: string)
    returns (edited: set<string>)
    requires PUBLIC_URLS !in c.registry && IsSaveRun(c, requests, trace)
    requires i < |requests| && k in EditedOn(c, trace[i], requests[i])
    ensures k in edited && Faithful(c, edited, trace[|requests|])
  {
    var sets := EditedSets(c, requests, trace);
    RunIsFaithful(c, requests, trace, |requests|);
    Whole(sets);
    UnionHolds(sets, i);
    edited := Union(sets);
  }

  // ---- startup ----

  // No stored row makes the coercion raise, which would end the startup.
  ghost predicate Boots(c: Config, stored: Settings) {
    forall k <- stored :: k in c.registry ==> Coerce(c.registry[k], stored[k], c.floats) != Overflow
  }

  // What startup takes from the table: the URLs as they are, registry keys coerced, others dropped.
  function Overlay(c: Config, stored: Settings): Settings {
    map k | k in stored &&
            (k == PUBLIC_URLS || (k in c.registry && Coerce(c.registry[k], stored[k], c.floats).Good?)) ::
      if k == PUBLIC_URLS then stored[k] else Coerce(c.registry[k], stored[k], c.floats).value
  }

  // defaults < environment < table
  function Booted(c: Config, defaults: Settings, env: Settings, stored: Settings): Settings {
    defaults + env + Overlay(c, stored)
  }

  lemma CoercedBoots(c: Config, kept: Settings, k: string)
    requires AllCoerce(c.registry, kept, c.floats) && k in kept
    ensures Coerce(c.registry[k], Coerced(c.registry, kept, c.floats)[k], c.floats) != Overflow
  {
    CoerceIsIdempotent(c.registry[k], kept[k], c.floats);
  }

  lemma PlusBoots(c: Config, a: Settings, b: Settings)
    requires Boots(c, a) && Boots(c, b)
    ensures Boots(c, a + b)
  {
  }

  lemma WithServersBoots(c: Config, plain: Settings, texts: seq<string>, urls: seq<string>)
    requires PUBLIC_URLS !in c.registry && ServersField(c) && Boots(c, plain)
    ensures Boots(c, WithServers(plain, texts, urls))
  {
  }

  lemma SaveKeepsBoots(c: Config, s: AppState, request: Request, t: AppState)
    requires PUBLIC_URLS !in c.registry && ServersField(c)
    requires Boots(c, s.stored) && Saved(c, s, request, t)
    ensures Boots(c, t.stored)
  {
    if Accepted(c, s, request) {
      var kept, texts, urls := Kept(c.registry, request.changes), TextsOf(s, request), UrlsOf(request);
      var plain := Coerced(c.registry, kept, c.floats);
      forall k | k in plain ensures Coerce(c.registry[k], plain[k], c.floats) != Overflow {
        CoercedBoots(c, kept, k);
      }
      WithServersBoots(c, plain, texts, urls);
      PlusBoots(c, s.stored, WithServers(plain, texts, urls));
    }
  }

  // The servers entry of the registry stores its value as it is.
  predicate ServersField(c: Config) {
    SERVERS in c.registry ==> c.registry[SERVERS].kind.ServersK?
  }

  lemma RunKeepsBoots(c: Config, requests: seq<Request>, trace: seq<AppState>, n: nat)
    requires PUBLIC_URLS !in c.registry && ServersField(c) && IsSaveRun(c, requests, trace) && n <= |requests|
    requires Boots(c, trace[0].stored)
    ensures Boots(c, trace[n].stored)
  {
    forall s: AppState, request: Request, t: AppState | Boots(c, s.stored) && Saved(c, s, request, t)
      ensures Boots(c, t.stored)
    {
      SaveKeepsBoots(c, s, request, t);
    }
    RunInvariant(c, requests, trace, 0, n, (s: AppState) => Boots(c, s.stored), _ => true);
  }

  // How a secret says "no change".
  predicate NoChange(v: Value) { v == Null || v == Str("") || v == Str("__secret__") }

  lemma SpeaksIffKept(registry: map<string, Field>, changes: Settings, k: string)
    requires k in registry && k in changes
    ensures k in Kept(registry, changes) <==> !(registry[k].kind == SecretK && NoChange(changes[k]))
  {
  }

  // After any run of saves, accepted and refused, a restart reads every key that an accepted
  // request edited with its live value.
  lemma EveryEditSurvivesRestart(c: Config, requests: seq<Request>, trace: seq<AppState>, i: nat, k: string,
                                 defaults: Settings, env: Settings)
    requires PUBLIC_URLS !in c.registry && IsSaveRun(c, requests, trace)
    requires i < |requests| && Accepted(c, trace[i], requests[i])
    requires k in requests[i].changes
    requires k in c.registry && c.registry[k].kind == SecretK ==> !NoChange(requests[i].changes[k])
    ensures var s := trace[|requests|];
            var booted := Booted(c, defaults, env, s.stored);
            k in s.live && k in booted && booted[k] == s.live[k]
  {
    var n := |requests|;
    assert k in c.registry && k != SERVERS;
    SpeaksIffKept(c.registry, requests[i].changes, k);
    assert k in EditedOn(c, trace[i], requests[i]);
    var edited := EditsAreFaithful(c, requests, trace, i, k);
    FixedIffInType(c.registry[k], trace[n].stored[k], c.floats);
  }

  // After any run in which some accepted request submitted servers, a restart reads server
  // strings and URLs from which it derives lists again; and they are the live servers, groups
  // and credentials, unless two of the servers share a sort key.
  lemma ServersSurviveRestart(c: Config, requests: seq<Request>, trace: seq<AppState>, i: nat, defaults: Settings,
                              env: Settings)
    requires PUBLIC_URLS !in c.registry && ServersField(c) && IsSaveRun(c, requests, trace)
    requires i < |requests| && Accepted(c, trace[i], requests[i]) && requests[i].rows.Some?
    ensures var s := trace[|requests|];
            var booted := Booted(c, defaults, env, s.stored);
            exists texts, urls ::
              && SERVERS in booted && booted[SERVERS] == Strs(texts)
              && PUBLIC_URLS in booted && booted[PUBLIC_URLS] == Strs(urls)
              && Derivation(Specs(texts), urls)
              && (DistinctServers(Specs(texts)) ==> forall es :: DerivesTo(Specs(texts), urls, es) ==> Shows(s, es))
  {
    var n := |requests|;
    var s := trace[n];
    assert SERVERS in EditedOn(c, trace[i], requests[i]);
    var edited := EditsAreFaithful(c, requests, trace, i, SERVERS);
    var texts, urls :| StoredAs(s, texts, urls);
    BootedServers(c, s, texts, urls, defaults, env);
    if DistinctServers(s.raw) {
      SameLists(s, urls);
    }
  }

  lemma BootedServers(c: Config, s: AppState, texts: seq<string>, urls: seq<string>, defaults: Settings, env: Settings)
    requires SERVERS in c.registry && ServersField(c) && PUBLIC_URLS !in c.registry && StoredAs(s, texts, urls)
    ensures var booted := Booted(c, defaults, env, s.stored);
            && SERVERS in booted && booted[SERVERS] == Strs(texts)
            && PUBLIC_URLS in booted && booted[PUBLIC_URLS] == Strs(urls)
    ensures Derivation(Specs(texts), urls)
  {
    Names();
    OverlayAt(c, s.stored, SERVERS);
    OverlayAt(c, s.stored, PUBLIC_URLS);
    assert UrlsFor(s.raw, urls) == urls;
  }

  lemma OverlayAt(c: Config, stored: Settings, k: string)
    requires PUBLIC_URLS !in c.registry && k in stored
    requires k == PUBLIC_URLS || (k in c.registry && c.registry[k].kind.ServersK? && stored[k].List?)
    ensures k in Overlay(c, stored) && Overlay(c, stored)[k] == stored[k]
  {
  }

  lemma SameLists(s: AppState, urls: seq<string>)
    requires DerivedFrom(s) && DistinctServers(s.raw) && |urls| == |s.raw| > 0
    ensures forall es :: DerivesTo(s.raw, urls, es) ==> Shows(s, es)
  {
    var u, a :| |u| == |s.raw| && IsSortOf(a, EntrySet(s.raw, u)) && Shows(s, a);
    assert UrlsFor(s.raw, urls) == urls;
    forall es | DerivesTo(s.raw, urls, es) ensures Shows(s, es) {
      UrlsDoNotMoveServers(s.raw, u, a, urls, es);
    }
  }
}
