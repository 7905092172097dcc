// What becomes of one key: in a save, over any number of saves, and at startup.
module SettingsValues {
  import opened NoOpSave
  import opened Options
  import opened ServerDerivation
  import opened ServerStrings
  import opened SettingsRegistry
  import opened SettingsRuns
  import opened SettingsSave
  import opened Texts

  // Absent from both, or present in both with one value.
  predicate SameAt(a: Settings, b: Settings, k: string) {
    (k in a <==> k in b) && (k in a ==> a[k] == b[k])
  }

  predicate SameInBoth(s: AppState, t: AppState, k: string) {
    SameAt(s.stored, t.stored, k) && SameAt(s.live, t.live, k)
  }

  // Stored and live with this value.
  predicate Becomes(t: AppState, k: string, v: Value) {
    k in t.stored && k in t.live && t.stored[k] == v == t.live[k]
  }

  // ---- which requests are accepted ----

  // The submitted value says "no change" of a secret.
  predicate LeavesSecret(c: Config, k: string, v: Value) {
    k in c.registry && c.registry[k].kind == SecretK && NoChange(v)
  }

  // The settings as the fields' own validators see them: the live ones under the new values.
  function Merged(c: Config, live: Settings, changes: Settings): Settings {
    live + map k | k in changes && k in c.registry && !LeavesSecret(c, k, changes[k]) &&
                   Coerce(c.registry[k], changes[k], c.floats).Good? ::
             Coerce(c.registry[k], changes[k], c.floats).value
  }

  lemma MergedIs(c: Config, live: Settings, changes: Settings)
    requires AllCoerce(c.registry, Kept(c.registry, changes), c.floats)
    ensures Merged(c, live, changes) == live + Coerced(c.registry, Kept(c.registry, changes), c.floats)
  {
    var kept := Kept(c.registry, changes);
    forall k ensures k in kept <==> k in changes && !LeavesSecret(c, k, changes[k]) {
    }
    var converted := map k | k in changes && k in c.registry && !LeavesSecret(c, k, changes[k]) &&
                          Coerce(c.registry[k], changes[k], c.floats).Good? ::
                    Coerce(c.registry[k], changes[k], c.floats).value;
    assert converted == Coerced(c.registry, kept, c.floats);
  }

  predicate ValueAccepted(c: Config, live: Settings, changes: Settings, k: string)
    requires k in changes
  {
    || LeavesSecret(c, k, changes[k])
    || (k in c.registry && Coerce(c.registry[k], changes[k], c.floats).Good? &&
        !c.invalid(k, Merged(c, live, changes)))
  }

  predicate ValuesAccepted(c: Config, live: Settings, changes: Settings) {
    forall k <- changes :: ValueAccepted(c, live, changes, k)
  }

  lemma ValuesAcceptedIff(c: Config, live: Settings, changes: Settings)
    ensures Acceptable(c, live, Kept(c.registry, changes)) <==> ValuesAccepted(c, live, changes)
  {
    var kept := Kept(c.registry, changes);
    forall k | k in changes ensures k in kept <==> !LeavesSecret(c, k, changes[k]) {
    }
    forall k | k in kept ensures k in changes && kept[k] == changes[k] {
    }
    if AllCoerce(c.registry, kept, c.floats) {
      MergedIs(c, live, changes);
    } else {
      var k :| k in kept && !(k in c.registry && Coerce(c.registry[k], kept[k], c.floats).Good?);
      assert !ValueAccepted(c, live, changes, k);
    }
  }

  // The lists can be derived: from the printed rows beside their URLs, or, when the
  // connectivity check is set, from the raw strings and the live URLs.
  predicate ListsDerivable(c: Config, s: AppState, request: Request) {
    if request.rows.Some? then
      Derivation(Specs(PrintedRows(request.rows.value, HostPortTexts(s.servers), s.auths)),
                 PublicUrls(request.rows.value))
    else
      CHECK in request.changes && !LeavesSecret(c, CHECK, request.changes[CHECK]) ==>
        Derivation(if s.raw != [] then s.raw else s.servers, s.publicUrls)
  }

  predicate KeysAccepted(c: Config, request: Request) {
    forall k <- request.changes :: k in c.registry && k !in c.bootstrap && k != "SCRAPYD_SERVERS"
  }

  predicate RowsAccepted(c: Config, request: Request) {
    request.rows.Some? ==>
      && "SCRAPYD_SERVERS" in c.registry && "SCRAPYD_SERVERS" !in c.bootstrap && request.rows.value != []
      && forall i :: 0 <= i < |request.rows.value| ==>
           request.rows.value[i].ServerRow? && Strip(request.rows.value[i].host, Whitespace) != ""
  }

  lemma KeysAndRows(c: Config, request: Request)
    ensures KnownKeys(c, request) && RowsAcceptable(request) <==> KeysAccepted(c, request) && RowsAccepted(c, request)
  {
    if request.rows.Some? {
      ServerStrings.AcceptedIff(request.rows.value);
    }
  }

  // A request is accepted exactly when its keys are registered and no bootstrap keys, its rows
  // are objects with hosts, at least one, each value that is not a secret left alone converts
  // and passes its validator, and the lists can be derived.
  lemma AcceptedIff(c: Config, s: AppState, request: Request)
    ensures Accepted(c, s, request) <==>
            && KeysAccepted(c, request) && RowsAccepted(c, request)
            && ValuesAccepted(c, s.live, request.changes) && ListsDerivable(c, s, request)
  {
    KeysAndRows(c, request);
    ValuesAcceptedIff(c, s.live, request.changes);
    if request.rows.Some? ==> request.rows.value != [] {
      DerivableIff(c, s, request);
    }
  }

  lemma DerivableIff(c: Config, s: AppState, request: Request)
    requires request.rows.Some? ==> request.rows.value != []
    ensures CanDerive(s, Kept(c.registry, request.changes), TextsOf(s, request), UrlsOf(request)) <==>
            ListsDerivable(c, s, request)
  {
    assert CHECK in Kept(c.registry, request.changes) <==>
           CHECK in request.changes && !LeavesSecret(c, CHECK, request.changes[CHECK]);
  }

  // ---- one save ----

  // A submitted secret that is null, empty or the mask leaves the key as it was, present or
  // absent; any other text is stored and live as submitted. A key of another kind is stored
  // and live as its coerced value, the empty text included.
  lemma SubmittedKey(c: Config, s: AppState, request: Request, t: AppState, k: string)
    requires PUBLIC_URLS !in c.registry && Accepted(c, s, request) && Saved(c, s, request, t)
    requires k in request.changes
    ensures k in c.registry && k !in c.bootstrap && k != SERVERS && k != PUBLIC_URLS
    ensures var v := request.changes[k];
            if c.registry[k].kind == SecretK then
              if NoChange(v) then SameInBoth(s, t, k)
              else v.Str? && Becomes(t, k, v)
            else
              Coerce(c.registry[k], v, c.floats).Good? && Becomes(t, k, Coerce(c.registry[k], v, c.floats).value)
  {
    Names();
    var kept := Kept(c.registry, request.changes);
    assert k in kept <==> !Untouched(c.registry[k], request.changes[k]);
    StoredAt(s.stored, Coerced(c.registry, kept, c.floats), TextsOf(s, request), UrlsOf(request), k);
  }

  lemma StoredAt(stored: Settings, plain: Settings, texts: seq<string>, urls: seq<string>, k: string)
    requires k != SERVERS && k != PUBLIC_URLS
    ensures SameAt(stored + WithServers(plain, texts, urls), stored + plain, k)
  {
  }

  // A key that is not submitted stays as it was, but for the rows of submitted servers.
  lemma OtherKey(c: Config, s: AppState, request: Request, t: AppState, k: string)
    requires Saved(c, s, request, t) && k !in request.changes
    ensures SameAt(s.live, t.live, k)
    ensures request.rows.None? || (k != SERVERS && k != PUBLIC_URLS) ==> SameAt(s.stored, t.stored, k)
  {
    if Accepted(c, s, request) {
      var kept := Kept(c.registry, request.changes);
      assert k !in kept;
      if k != SERVERS && k != PUBLIC_URLS {
        StoredAt(s.stored, Coerced(c.registry, kept, c.floats), TextsOf(s, request), UrlsOf(request), k);
      }
    }
  }

  // ---- any number of saves ----

  // The request does not speak about the key: it is refused, leaves the key out, or says "no
  // change" of a secret.
  ghost predicate Silent(c: Config, s: AppState, request: Request, k: string) {
    || !Accepted(c, s, request)
    || k !in request.changes
    || (k in c.registry && c.registry[k].kind == SecretK && NoChange(request.changes[k]))
  }

  ghost predicate SilentAt(c: Config, requests: seq<Request>, trace: seq<AppState>, i: nat, k: string)
    requires i < |requests| < |trace|
  {
    Silent(c, trace[i], requests[i], k)
  }

  ghost predicate SilentFrom(c: Config, requests: seq<Request>, trace: seq<AppState>, m: nat, k: string)
    requires |requests| < |trace|
  {
    forall i :: m <= i < |requests| ==> SilentAt(c, requests, trace, i, k)
  }

  lemma SilentSave(c: Config, s: AppState, request: Request, t: AppState, k: string)
    requires PUBLIC_URLS !in c.registry && Saved(c, s, request, t) && Silent(c, s, request, k)
    requires k != SERVERS && k != PUBLIC_URLS
    ensures SameInBoth(s, t, k)
  {
    if Accepted(c, s, request) {
      if k in request.changes {
        SubmittedKey(c, s, request, t, k);
      } else {
        OtherKey(c, s, request, t, k);
      }
    }
  }

  // A key keeps its value, stored and live, as long as no accepted request speaks about it.
  lemma {:induction false} SilenceKeeps(c: Config, requests: seq<Request>, trace: seq<AppState>, m: nat, n: nat,
                                        k: string)
    requires PUBLIC_URLS !in c.registry && IsSaveRun(c, requests, trace) && m <= n <= |requests|
    requires k != SERVERS && k != PUBLIC_URLS && SilentFrom(c, requests, trace, m, k)
    ensures SameInBoth(trace[m], trace[n], k)
    decreases n
  {
    if n > m {
      SilenceKeeps(c, requests, trace, m, n - 1, k);
      assert SavedAt(c, requests, trace, n - 1) && SilentAt(c, requests, trace, n - 1, k);
      SilentSave(c, trace[n - 1], requests[n - 1], trace[n], k);
    }
  }

  // A request that does speak about a key sets it: a secret as the submitted text, any other
  // value as coerced, ...
  lemma WordIsTaken(c: Config, requests: seq<Request>, trace: seq<AppState>, i: nat, k: string) returns (w: Value)
    requires PUBLIC_URLS !in c.registry && IsSaveRun(c, requests, trace) && i < |requests|
    requires !SilentAt(c, requests, trace, i, k)
    ensures k in c.registry && k in requests[i].changes && k != SERVERS && k != PUBLIC_URLS
    ensures var v := requests[i].changes[k];
            if c.registry[k].kind == SecretK then v.Str? && v == w else Coerce(c.registry[k], v, c.floats) == Good(w)
    ensures Becomes(trace[i + 1], k, w) && Coerce(c.registry[k], w, c.floats) == Good(w)
  {
    assert SavedAt(c, requests, trace, i);
    w := SpokenValue(c, trace[i], requests[i], trace[i + 1], k);
  }

  lemma SpokenValue(c: Config, s: AppState, request: Request, t: AppState, k: string) returns (w: Value)
    requires PUBLIC_URLS !in c.registry && Saved(c, s, request, t) && !Silent(c, s, request, k)
    ensures k in c.registry && k != SERVERS && k != PUBLIC_URLS
    ensures if c.registry[k].kind == SecretK then request.changes[k].Str? && request.changes[k] == w
            else Coerce(c.registry[k], request.changes[k], c.floats) == Good(w)
    ensures Becomes(t, k, w) && Coerce(c.registry[k], w, c.floats) == Good(w)
  {
    SubmittedKey(c, s, request, t, k);
    var field, v := c.registry[k], request.changes[k];
    if field.kind == SecretK {
      w := v;
    } else {
      w := Coerce(field, v, c.floats).value;
      CoerceIsIdempotent(field, v, c.floats);
    }
  }

  // ---- startup ----

  // The table decides a key if its value there is usable: the URLs as they are, a registered
  // key as coerced. Otherwise the environment does, and the defaults after it.
  lemma BootedAt(c: Config, defaults: Settings, env: Settings, stored: Settings, k: string)
    requires PUBLIC_URLS !in c.registry
    ensures var booted := Booted(c, defaults, env, stored);
            if k == PUBLIC_URLS && k in stored then k in booted && booted[k] == stored[k]
            else if k in stored && k in c.registry && Coerce(c.registry[k], stored[k], c.floats).Good? then
              k in booted && booted[k] == Coerce(c.registry[k], stored[k], c.floats).value
            else if k in env then k in booted && booted[k] == env[k]
            else if k in defaults then k in booted && booted[k] == defaults[k]
            else k !in booted
  {
  }

  // ... and if no later request speaks about it, that value is stored and live at the end of
  // the run, and is what a restart reads.
  lemma LastWordStands(c: Config, requests: seq<Request>, trace: seq<AppState>, m: nat, k: string, w: Value,
                       defaults: Settings, env: Settings)
    requires PUBLIC_URLS !in c.registry && IsSaveRun(c, requests, trace) && m <= |requests|
    requires k in c.registry && k != SERVERS && SilentFrom(c, requests, trace, m, k)
    requires Becomes(trace[m], k, w) && Coerce(c.registry[k], w, c.floats) == Good(w)
    ensures Becomes(trace[|requests|], k, w)
    ensures var booted := Booted(c, defaults, env, trace[|requests|].stored); k in booted && booted[k] == w
  {
    SilenceKeeps(c, requests, trace, m, |requests|, k);
    BootedAt(c, defaults, env, trace[|requests|].stored, k);
  }
}
