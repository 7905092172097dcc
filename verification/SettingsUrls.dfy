// Public URLs and their servers: which server each URL stands beside after saves, further
// derivations and restarts.
module SettingsUrls {
  import opened NoOpSave
  import opened Options
  import opened Sequences
  import opened ServerDerivation
  import opened ServerPattern
  import opened ServerStrings
  import opened SettingsRegistry
  import opened SettingsRuns
  import opened SettingsSave
  import opened Texts

  // ---- public URLs and their servers ----

  // Index i of the four live lists describes one of these entries.
  predicate DescribesAt(s: AppState, i: nat, given: seq<Entry>)
    requires i < |s.servers| == |s.groups| == |s.auths| == |s.publicUrls|
  {
    exists e <- given ::
      && s.servers[i] == Text(HostPort(e)) && s.groups[i] == e.group && s.auths[i] == e.auth
      && s.publicUrls[i] == e.publicUrl
  }

  // Every server stands beside its own public URL.
  predicate Paired(s: AppState, given: seq<Entry>) {
    && |s.servers| == |s.groups| == |s.auths| == |s.publicUrls|
    && forall i :: 0 <= i < |s.servers| ==> DescribesAt(s, i, given)
  }

  // Entries with these URLs in place of their own.
  function Zipped(given: seq<Entry>, urls: seq<string>): (r: seq<Entry>)
    requires |urls| == |given|
    ensures |r| == |given| && forall i :: 0 <= i < |r| ==> r[i] == given[i].(publicUrl := urls[i])
  {
    seq(|given|, i requires 0 <= i < |given| => given[i].(publicUrl := urls[i]))
  }

  // Submittable entries: clean, with distinct sort keys. Their URLs may repeat or be blank.
  predicate Submittable(given: seq<Entry>) {
    && given != [] && Clean(given)
    && forall i, j :: 0 <= i < j < |given| ==> KeyOf(given[i]) != KeyOf(given[j])
  }

  lemma HostPortSplits(d: Entry, e: Entry)
    requires HostPort(d) == HostPort(e) && ':' !in d.ip && ':' !in e.ip
    ensures d.ip == e.ip && d.port == e.port
  {
    var s := HostPort(d);
    assert s[0..|d.ip|] == d.ip && s[0..|e.ip|] == e.ip;
    NextAfterField(s, 0, d.ip, {':'});
    NextAfterField(s, 0, e.ip, {':'});
    assert s[|d.ip| + 1..] == d.port && s[|e.ip| + 1..] == e.port;
  }

  lemma ZippedIsClean(given: seq<Entry>, urls: seq<string>)
    requires Clean(given) && |urls| == |given| && forall i :: 0 <= i < |urls| ==> Trim(urls[i], SpaceOrSlash)
    ensures Clean(Zipped(given, urls)) && EntryTexts(Zipped(given, urls)) == EntryTexts(given)
    ensures Urls(Zipped(given, urls)) == urls
  {
    forall i | 0 <= i < |given|
      ensures Tidy(Zipped(given, urls)[i]) && DelimiterClean(Zipped(given, urls)[i])
      ensures EntryText(Zipped(given, urls)[i]) == EntryText(given[i])
    {
      assert Tidy(given[i]) && DelimiterClean(given[i]);
    }
  }

  // What a derivation from the strings of these entries and some URLs lists.
  lemma DerivedFromGiven(given: seq<Entry>, urls: seq<string>, es: seq<Entry>)
    requires Clean(given) && |urls| == |given| > 0 && forall i :: 0 <= i < |urls| ==> Trim(urls[i], SpaceOrSlash)
    requires DerivesTo(Specs(EntryTexts(given)), urls, es)
    ensures IsSortOf(es, Elements(Zipped(given, urls)))
  {
    ZippedIsClean(given, urls);
    ParsesBack(Zipped(given, urls));
    assert UrlsFor(Specs(EntryTexts(given)), urls) == urls;
  }

  lemma OwnUrls(given: seq<Entry>)
    requires Clean(given)
    ensures Zipped(given, Urls(given)) == given
    ensures forall i :: 0 <= i < |given| ==> Trim(Urls(given)[i], SpaceOrSlash)
  {
    forall i | 0 <= i < |given| ensures given[i].(publicUrl := Urls(given)[i]) == given[i] && Tidy(given[i]) {
    }
  }

  // The live lists show this sorted listing, beside these URLs.
  ghost predicate Beside(s: AppState, es: seq<Entry>, urls: seq<string>) {
    Shows(s, es) && s.publicUrls == urls
  }

  lemma UrlOwner(given: seq<Entry>, d: Entry, e: Entry)
    requires NoRepeats(Urls(given)) && d in given && e in given && d.publicUrl == e.publicUrl
    ensures d == e
  {
    var i :| 0 <= i < |given| && given[i] == d;
    var j :| 0 <= j < |given| && given[j] == e;
    assert Urls(given)[i] == Urls(given)[j];
    assert !(i < j) && !(j < i);
  }

  // The entry that the lists describe at index i.
  lemma DescribedAt(s: AppState, given: seq<Entry>, es: seq<Entry>, urls: seq<string>, i: nat) returns (e: Entry)
    requires i < |es| == |urls| && Beside(s, es, urls) && Paired(s, given)
    ensures e in given && e.publicUrl == urls[i] && HostPort(e) == HostPort(es[i]) && e.group == es[i].group
  {
    assert |HostPorts(es)| == |es| && DescribesAt(s, i, given);
    e :| e in given && s.servers[i] == Text(HostPort(e)) && s.groups[i] == e.group && s.publicUrls[i] == e.publicUrl;
  }

  lemma SamePlaceSameKey(d: Entry, e: Entry)
    requires DelimiterClean(d) && DelimiterClean(e) && HostPort(d) == HostPort(e) && d.group == e.group
    ensures KeyOf(d) == KeyOf(e)
  {
    HostPortSplits(d, e);
  }

  lemma SortsAreClean(given: seq<Entry>, es: seq<Entry>)
    requires Clean(given) && IsSortOf(es, Elements(given))
    ensures Clean(es) && forall i :: 0 <= i < |es| ==> es[i] in given
  {
    forall i | 0 <= i < |es| ensures es[i] in given && Tidy(es[i]) && DelimiterClean(es[i]) {
      assert es[i] in Elements(es);
      var j :| 0 <= j < |given| && given[j] == es[i];
    }
  }

  lemma SubmittableKeys(given: seq<Entry>)
    requires Submittable(given)
    ensures NoRepeats(given) && DistinctSortKeys(Elements(given))
  {
    forall i, j | 0 <= i < j < |given| ensures given[i] != given[j] {
      assert KeyOf(given[i]) != KeyOf(given[j]);
    }
    forall a, b | a in Elements(given) && b in Elements(given) && a != b ensures KeyOf(a) != KeyOf(b) {
      SubmittableKey(given, a, b);
    }
  }

  lemma SubmittableKey(given: seq<Entry>, a: Entry, b: Entry)
    requires Submittable(given) && a in given && b in given && a != b
    ensures KeyOf(a) != KeyOf(b)
  {
    var i :| 0 <= i < |given| && given[i] == a;
    var j :| 0 <= j < |given| && given[j] == b;
    assert i < j || j < i;
  }

  lemma SortedAlready(given: seq<Entry>, es: seq<Entry>)
    requires Submittable(given) && Sorted(given) && IsSortOf(es, Elements(given))
    ensures es == given
  {
    SubmittableKeys(given);
    SortIsUnique(es, given, Elements(given));
  }

  lemma ShownIsPaired(s: AppState, given: seq<Entry>, es: seq<Entry>)
    requires Beside(s, es, Urls(es)) && forall i :: 0 <= i < |es| ==> es[i] in given
    ensures Paired(s, given)
  {
    assert |HostPorts(es)| == |es|;
    forall i | 0 <= i < |es| ensures DescribesAt(s, i, given) {
      assert s.servers[i] == Text(HostPorts(es)[i]);
    }
  }

  // Of the submitted entries only one stands at this place.
  lemma OnlyThere(given: seq<Entry>, d: Entry, e: Entry)
    requires Submittable(given) && d in given && e in given && HostPort(d) == HostPort(e) && d.group == e.group
    ensures d == e
  {
    assert Clean([d]) && Clean([e]) by {
      InGivenIsClean(given, d);
      InGivenIsClean(given, e);
    }
    SamePlaceSameKey(d, e);
    if d != e {
      SubmittableKey(given, d, e);
    }
  }

  lemma InGivenIsClean(given: seq<Entry>, e: Entry)
    requires Clean(given) && e in given
    ensures Tidy(e) && DelimiterClean(e)
  {
    var i :| 0 <= i < |given| && given[i] == e;
  }

  // The lists with these sorted servers are paired with what was submitted exactly when the
  // URLs are the sorted servers' own.
  lemma PairedIff(s: AppState, given: seq<Entry>, es: seq<Entry>, urls: seq<string>)
    requires Submittable(given) && IsSortOf(es, Elements(given)) && Beside(s, es, urls)
    ensures Paired(s, given) <==> urls == Urls(es)
  {
    SortsAreClean(given, es);
    if Paired(s, given) {
      assert |es| == |HostPorts(es)| == |s.servers| == |urls|;
      forall i | 0 <= i < |es| ensures urls[i] == Urls(es)[i] {
        var e := DescribedAt(s, given, es, urls, i);
        OnlyThere(given, e, es[i]);
      }
    }
    if urls == Urls(es) {
      ShownIsPaired(s, given, es);
    }
  }

  lemma ZippedShown(given: seq<Entry>, urls: seq<string>, fs: seq<Entry>, p: nat) returns (i: nat)
    requires p < |given| == |urls| && Elements(fs) == Elements(Zipped(given, urls))
    ensures i < |fs| && fs[i] == given[p].(publicUrl := urls[p])
  {
    var z := Zipped(given, urls)[p];
    assert z in Elements(fs);
    i :| 0 <= i < |fs| && fs[i] == z;
  }

  // The entries zipped with some URLs, sorted and beside those, are paired with what was
  // submitted exactly when the URLs are those submitted.
  lemma ZippedIff(s: AppState, given: seq<Entry>, urls: seq<string>, fs: seq<Entry>)
    requires Submittable(given) && |urls| == |given| && Beside(s, fs, Urls(fs))
    requires IsSortOf(fs, Elements(Zipped(given, urls)))
    ensures Paired(s, given) <==> urls == Urls(given)
  {
    if Paired(s, given) {
      forall p | 0 <= p < |given| ensures urls[p] == Urls(given)[p] {
        var i := ZippedShown(given, urls, fs, p);
        var e := DescribedAt(s, given, fs, Urls(fs), i);
        OnlyThere(given, e, given[p]);
      }
    }
    if urls == Urls(given) {
      OwnUrls(given);
      SortsAreClean(given, fs);
      ShownIsPaired(s, given, fs);
    }
  }

  // With distinct URLs the column keeps its order only if the servers were in order.
  lemma ColumnIff(given: seq<Entry>, es: seq<Entry>)
    requires Submittable(given) && IsSortOf(es, Elements(given))
    ensures Sorted(given) ==> Urls(es) == Urls(given)
    ensures NoRepeats(Urls(given)) ==> (Urls(es) == Urls(given) <==> Sorted(given))
  {
    if Sorted(given) {
      SortedAlready(given, es);
    }
    if NoRepeats(Urls(given)) && Urls(es) == Urls(given) {
      SortsAreClean(given, es);
      assert |es| == |Urls(es)| == |given|;
      forall i | 0 <= i < |given| ensures es[i] == given[i] {
        assert Urls(es)[i] == es[i].publicUrl && Urls(given)[i] == given[i].publicUrl;
        UrlOwner(given, es[i], given[i]);
      }
      assert es == given;
    }
  }

  // An accepted request that submits these entries.
  ghost predicate Submits(c: Config, s: AppState, request: Request, given: seq<Entry>) {
    && Accepted(c, s, request) && request.rows.Some?
    && TextsOf(s, request) == EntryTexts(given) && UrlsOf(request) == Urls(given)
  }

  // An accepted request that asks for another derivation, and nothing about the servers.
  ghost predicate DerivesAgain(c: Config, s: AppState, request: Request) {
    Accepted(c, s, request) && request.rows.None? && CHECK in Kept(c.registry, request.changes)
  }

  // What a save that submits these entries leaves.
  lemma SubmittedShows(c: Config, s: AppState, request: Request, t: AppState, given: seq<Entry>, es: seq<Entry>)
    requires Submits(c, s, request, given) && Saved(c, s, request, t) && Submittable(given)
    requires IsSortOf(es, Elements(given))
    ensures t.raw == Specs(EntryTexts(given)) && Beside(t, es, Urls(given))
  {
    var fs :| DerivesTo(t.raw, Urls(given), fs) && Shows(t, fs);
    OwnUrls(given);
    DerivedFromGiven(given, Urls(given), fs);
    SubmittableKeys(given);
    SortIsUnique(fs, es, Elements(given));
  }

  // After servers have been submitted, every live public URL belongs to the server beside it
  // if and only if sorting the submitted servers leaves the column of their URLs as it is.
  lemma UrlsAlignedIff(c: Config, s: AppState, request: Request, t: AppState, given: seq<Entry>, es: seq<Entry>)
    requires Submits(c, s, request, given) && Saved(c, s, request, t) && Submittable(given)
    requires IsSortOf(es, Elements(given))
    ensures Paired(t, given) <==> Urls(es) == Urls(given)
  {
    SubmittedShows(c, s, request, t, given, es);
    PairedIff(t, given, es, Urls(given));
  }

  // So servers submitted in sorted order keep their URLs, and with distinct URLs no others do.
  lemma UrlsAlignedIffSubmittedSorted(c: Config, s: AppState, request: Request, t: AppState, given: seq<Entry>,
                                      es: seq<Entry>)
    requires Submits(c, s, request, given) && Saved(c, s, request, t) && Submittable(given)
    requires IsSortOf(es, Elements(given))
    ensures Sorted(given) ==> Paired(t, given)
    ensures NoRepeats(Urls(given)) ==> (Paired(t, given) <==> Sorted(given))
  {
    UrlsAlignedIff(c, s, request, t, given, es);
    ColumnIff(given, es);
  }

  // A later derivation zips the raw servers, still in their submitted order, with whatever the
  // live URLs are by then: it aligns them if and only if that column is the submitted one.
  lemma DerivingAlignsIff(c: Config, u: AppState, again: Request, v: AppState, given: seq<Entry>)
    requires DerivesAgain(c, u, again) && Saved(c, u, again, v)
    requires u.raw == Specs(EntryTexts(given)) && Submittable(given)
    requires forall url <- u.publicUrls :: Trim(url, SpaceOrSlash)
    ensures Paired(v, given) <==> UrlsFor(u.raw, u.publicUrls) == Urls(given)
    ensures v.raw == u.raw
  {
    var urls := UrlsFor(u.raw, u.publicUrls);
    var fs :| DerivesTo(u.raw, u.publicUrls, fs) && Shows(v, fs) && v.publicUrls == Urls(fs);
    assert |urls| == |u.raw| == |given|;
    forall i | 0 <= i < |urls| ensures Trim(urls[i], SpaceOrSlash) {
      assert u.publicUrls != [] ==> urls[i] in u.publicUrls;
    }
    assert UrlsFor(u.raw, urls) == urls;
    DerivedFromGiven(given, urls, fs);
    ZippedIff(v, given, urls, fs);
  }

  lemma UrlsAreTrim(es: seq<Entry>)
    requires Clean(es)
    ensures forall url <- Urls(es) :: Trim(url, SpaceOrSlash)
  {
    forall url | url in Urls(es) ensures Trim(url, SpaceOrSlash) {
      var i :| 0 <= i < |es| && Urls(es)[i] == url;
      assert Tidy(es[i]);
    }
  }

  // Setting the connectivity check once after a submission puts every URL beside its server, ...
  lemma DerivingAgainAligns(c: Config, s: AppState, submit: Request, t: AppState, again: Request, u: AppState,
                            given: seq<Entry>, es: seq<Entry>)
    requires Submits(c, s, submit, given) && Saved(c, s, submit, t) && Submittable(given)
    requires DerivesAgain(c, t, again) && Saved(c, t, again, u)
    requires IsSortOf(es, Elements(given))
    ensures Paired(u, given) && Beside(u, es, Urls(es)) && u.raw == t.raw == Specs(EntryTexts(given))
  {
    SubmittedShows(c, s, submit, t, given, es);
    UrlsAreTrim(given);
    DerivingAlignsIff(c, t, again, u, given);
    var fs :| DerivesTo(t.raw, Urls(given), fs) && Shows(u, fs) && u.publicUrls == Urls(fs);
    OwnUrls(given);
    DerivedFromGiven(given, Urls(given), fs);
    SubmittableKeys(given);
    SortIsUnique(fs, es, Elements(given));
  }

  // ... and setting it once more keeps them there if and only if sorting the submitted servers
  // leaves the column of their URLs as it is: now that column is zipped in sorted order.
  lemma DerivingTwiceAlignsIff(c: Config, s: AppState, submit: Request, t: AppState, again: Request, u: AppState,
                               more: Request, v: AppState, given: seq<Entry>, es: seq<Entry>)
    requires Submits(c, s, submit, given) && Saved(c, s, submit, t) && Submittable(given)
    requires DerivesAgain(c, t, again) && Saved(c, t, again, u)
    requires DerivesAgain(c, u, more) && Saved(c, u, more, v)
    requires IsSortOf(es, Elements(given))
    ensures Paired(v, given) <==> Urls(es) == Urls(given)
  {
    DerivingAgainAligns(c, s, submit, t, again, u, given, es);
    SortsAreClean(given, es);
    UrlsAreTrim(es);
    DerivingAlignsIff(c, u, more, v, given);
    assert given[0] in Elements(es);
  }

  // The live lists are these entries, as submitted, each beside its URL.
  ghost predicate InOrder(s: AppState, given: seq<Entry>) {
    s.raw == Specs(EntryTexts(given)) && Beside(s, given, Urls(given))
  }

  lemma OneSaveKeepsOrder(c: Config, s: AppState, request: Request, t: AppState, given: seq<Entry>)
    requires Saved(c, s, request, t) && request.rows.None?
    requires Submittable(given) && Sorted(given) && InOrder(s, given)
    ensures InOrder(t, given)
  {
    if DerivesAgain(c, s, request) {
      var es :|
        DerivesTo(SpecsToDerive(s.raw, s.servers), s.publicUrls, es) && Shows(t, es) && t.publicUrls == Urls(es);
      OwnUrls(given);
      DerivedFromGiven(given, Urls(given), es);
      SortedAlready(given, es);
    }
  }

  // Servers submitted in sorted order keep their URLs through any run of other saves.
  lemma SortedStaysAligned(c: Config, requests: seq<Request>, trace: seq<AppState>, n: nat, given: seq<Entry>)
    requires IsSaveRun(c, requests, trace) && n <= |requests| && forall i :: 0 <= i < n ==> requests[i].rows.None?
    requires Submittable(given) && Sorted(given) && InOrder(trace[0], given)
    ensures InOrder(trace[n], given) && Paired(trace[n], given)
  {
    forall s: AppState, request: Request, t: AppState |
      InOrder(s, given) && request.rows.None? && Saved(c, s, request, t)
      ensures InOrder(t, given)
    {
      OneSaveKeepsOrder(c, s, request, t, given);
    }
    RunInvariant(c, requests, trace, 0, n, (s: AppState) => InOrder(s, given), (r: Request) => r.rows.None?);
    ShownIsPaired(trace[n], given, given);
  }

  // ---- restarts ----

  // Without their URLs the submitted servers are as distinct as their keys.
  lemma GivenAreDistinct(given: seq<Entry>)
    requires Submittable(given)
    ensures DistinctServers(Specs(EntryTexts(given)))
  {
    var blank := Blank(|given|);
    var z := Zipped(given, blank);
    ZippedIsClean(given, blank);
    forall i | 0 <= i < |given| ensures Parsed(Specs(EntryTexts(given)), blank)[i] == Some(z[i]) {
      assert Tidy(z[i]) && DelimiterClean(z[i]);
      EntryRoundTrip(z[i]);
    }
    forall i, j | 0 <= i < j < |given| ensures KeyOf(z[i]) != KeyOf(z[j]) {
      KeyOfErased(given[i]);
      KeyOfErased(given[j]);
    }
  }

  // The submitted strings and URLs are stored, and the live servers are the submitted ones.
  ghost predicate StillShows(s: AppState, given: seq<Entry>, es: seq<Entry>) {
    StoredAs(s, EntryTexts(given), Urls(given)) && Shows(s, es)
  }

  // A save that submits servers stores their strings and their URLs.
  lemma StoredWithServers(c: Config, s: AppState, request: Request, t: AppState, texts: seq<string>, urls: seq<string>)
    requires Accepted(c, s, request) && Saved(c, s, request, t) && request.rows.Some?
    requires TextsOf(s, request) == texts && UrlsOf(request) == urls
    requires |texts| == |urls| > 0 && Derivable(Specs(texts), urls)
    ensures StoredAs(t, texts, urls)
  {
    Names();
    var plain := Coerced(c.registry, Kept(c.registry, request.changes), c.floats);
    assert t.stored == s.stored + plain[SERVERS := Strs(texts)][PUBLIC_URLS := Strs(urls)];
  }

  lemma SubmissionShows(c: Config, s: AppState, request: Request, t: AppState, given: seq<Entry>, es: seq<Entry>)
    requires Submits(c, s, request, given) && Saved(c, s, request, t) && Submittable(given)
    requires PUBLIC_URLS !in c.registry && IsSortOf(es, Elements(given))
    ensures StillShows(t, given, es)
  {
    SubmittedShows(c, s, request, t, given, es);
    ParsesBack(given);
    StoredWithServers(c, s, request, t, EntryTexts(given), Urls(given));
  }

  lemma OtherSaveShows(c: Config, s: AppState, request: Request, t: AppState, given: seq<Entry>, es: seq<Entry>)
    requires Saved(c, s, request, t) && request.rows.None? && StillShows(s, given, es)
    requires PUBLIC_URLS !in c.registry && Submittable(given) && IsSortOf(es, Elements(given))
    ensures StillShows(t, given, es)
  {
    if Accepted(c, s, request) {
      StoredAlone(c, s, request, t, EntryTexts(given), Urls(given));
      if DerivesAgain(c, s, request) {
        var fs :|
          DerivesTo(SpecsToDerive(s.raw, s.servers), s.publicUrls, fs) && Shows(t, fs) && t.publicUrls == Urls(fs);
        SameServersShown(s.raw, UrlsFor(s.raw, s.publicUrls), fs, given, es);
      }
    }
  }

  lemma SameServersShown(raw: seq<ServerSpec>, urls: seq<string>, fs: seq<Entry>, given: seq<Entry>, es: seq<Entry>)
    requires Submittable(given) && IsSortOf(es, Elements(given)) && raw == Specs(EntryTexts(given))
    requires |urls| == |raw| && IsSortOf(fs, EntrySet(raw, urls))
    ensures HostPorts(fs) == HostPorts(es) && NoOpSave.Groups(fs) == NoOpSave.Groups(es) && Auths(fs) == Auths(es)
  {
    GivenAreDistinct(given);
    ParsesBack(given);
    UrlsDoNotMoveServers(raw, urls, fs, Urls(given), es);
  }

  // A save without servers touches neither the stored strings nor the stored URLs.
  lemma StoredAlone(c: Config, s: AppState, request: Request, t: AppState, texts: seq<string>, urls: seq<string>)
    requires Accepted(c, s, request) && Saved(c, s, request, t) && request.rows.None?
    requires PUBLIC_URLS !in c.registry && StoredAs(s, texts, urls)
    ensures StoredAs(t, texts, urls)
  {
    Names();
    var plain := Coerced(c.registry, Kept(c.registry, request.changes), c.floats);
    assert SERVERS !in plain && PUBLIC_URLS !in plain;
    assert t.stored == s.stored + plain;
  }

  // After any run whose last submission of servers was this one, a restart reads the submitted
  // strings beside the submitted URLs, and lists every server beside its own URL: it shows the
  // live servers, and leaves the live URLs as they were if and only if they were aligned.
  lemma RestartAlignsUrls(c: Config, requests: seq<Request>, trace: seq<AppState>, i: nat, given: seq<Entry>,
                          es: seq<Entry>, defaults: Settings, env: Settings)
    requires PUBLIC_URLS !in c.registry && ServersField(c) && IsSaveRun(c, requests, trace)
    requires i < |requests| && Submits(c, trace[i], requests[i], given) && Submittable(given)
    requires forall j :: i < j < |requests| ==> requests[j].rows.None?
    requires IsSortOf(es, Elements(given))
    ensures var s := trace[|requests|];
            var booted := Booted(c, defaults, env, s.stored);
            && SERVERS in booted && booted[SERVERS] == Strs(EntryTexts(given))
            && PUBLIC_URLS in booted && booted[PUBLIC_URLS] == Strs(Urls(given))
            && (forall fs :: DerivesTo(Specs(EntryTexts(given)), Urls(given), fs) <==> fs == es)
            && Shows(s, es)
            && (Paired(s, given) <==> s.publicUrls == Urls(es))
  {
    var s := trace[|requests|];
    assert SavedAt(c, requests, trace, i);
    SubmissionShows(c, trace[i], requests[i], trace[i + 1], given, es);
    forall s: AppState, request: Request, t: AppState |
      StillShows(s, given, es) && request.rows.None? && Saved(c, s, request, t)
      ensures StillShows(t, given, es)
    {
      OtherSaveShows(c, s, request, t, given, es);
    }
    RunInvariant(c, requests, trace, i + 1, |requests|, (s: AppState) => StillShows(s, given, es),
                 (r: Request) => r.rows.None?);
    BootedServers(c, s, EntryTexts(given), Urls(given), defaults, env);
    OnlyDerivation(given, es);
    PairedIff(s, given, es, s.publicUrls);
  }

  lemma OnlyDerivation(given: seq<Entry>, es: seq<Entry>)
    requires Submittable(given) && IsSortOf(es, Elements(given))
    ensures forall fs :: DerivesTo(Specs(EntryTexts(given)), Urls(given), fs) <==> fs == es
  {
    ParsesBack(given);
    assert UrlsFor(Specs(EntryTexts(given)), Urls(given)) == Urls(given);
    SubmittableKeys(given);
    forall fs | DerivesTo(Specs(EntryTexts(given)), Urls(given), fs) ensures fs == es {
      SortIsUnique(fs, es, Elements(given));
    }
  }

  // ---- saving what is shown ----

  // Submitting the rows that are shown is accepted and leaves the live settings, servers,
  // groups, credentials and URLs as they are, aligned or not.
  lemma NoOpSaveKeepsState(c: Config, s: AppState, es: seq<Entry>, request: Request)
    requires SERVERS in c.registry && SERVERS !in c.bootstrap
    requires Submittable(es) && Sorted(es) && DistinctHostPorts(es)
    requires Shows(s, es) && |s.publicUrls| == |es| && forall url <- s.publicUrls :: Trim(url, SpaceOrSlash)
    requires request == Request(map[], ShownRows(HostPortTexts(s.servers), s.groups, s.auths, s.publicUrls))
    ensures Accepted(c, s, request) && request.rows.Some?
    ensures forall t :: Saved(c, s, request, t) ==>
              t.live == s.live && t.servers == s.servers && t.groups == s.groups && t.auths == s.auths &&
              t.publicUrls == s.publicUrls
  {
    var z := Zipped(es, s.publicUrls);
    ZippedStaysSorted(es, s.publicUrls);
    ShownIsSubmitted(s, es, z, request);
    CleanIsAccepted(c, s, request, z);
    forall t | Saved(c, s, request, t)
      ensures t.live == s.live && Shows(t, es) && t.publicUrls == s.publicUrls
    {
      NothingSubmitted(c, s, request, t);
      SubmittedShows(c, s, request, t, z, z);
      SameColumns(es, s.publicUrls);
    }
  }

  lemma NothingSubmitted(c: Config, s: AppState, request: Request, t: AppState)
    requires Accepted(c, s, request) && Saved(c, s, request, t) && request.changes == map[]
    ensures t.live == s.live
  {
    assert Kept(c.registry, request.changes) == map[];
    assert Coerced(c.registry, map[], c.floats) == map[];
  }

  lemma SameColumns(es: seq<Entry>, urls: seq<string>)
    requires |urls| == |es|
    ensures var z := Zipped(es, urls);
            HostPorts(z) == HostPorts(es) && NoOpSave.Groups(z) == NoOpSave.Groups(es) && Auths(z) == Auths(es) &&
            Urls(z) == urls
  {
  }

  lemma ZippedStaysSorted(es: seq<Entry>, urls: seq<string>)
    requires Submittable(es) && Sorted(es) && DistinctHostPorts(es)
    requires |urls| == |es| && forall url <- urls :: Trim(url, SpaceOrSlash)
    ensures var z := Zipped(es, urls);
            Submittable(z) && DistinctHostPorts(z) && IsSortOf(z, Elements(z))
  {
    var z := Zipped(es, urls);
    assert forall i :: 0 <= i < |urls| ==> urls[i] in urls;
    ZippedIsClean(es, urls);
    forall i | 0 <= i < |es| ensures KeyOf(z[i]) == KeyOf(es[i]) && HostPort(z[i]) == HostPort(es[i]) {
      KeyOfErased(z[i]);
      KeyOfErased(es[i]);
      assert Erase(z[i]) == Erase(es[i]);
    }
    forall i, j | 0 <= i < j < |z| ensures z[i] != z[j] && KeyOf(z[i]) != KeyOf(z[j]) {
      assert KeyOf(es[i]) != KeyOf(es[j]);
    }
  }

  lemma AllPrintBack(z: seq<Entry>) returns (rows: seq<ServerRow>)
    requires Clean(z) && DistinctHostPorts(z)
    ensures ShownRows(HostPorts(z), NoOpSave.Groups(z), Auths(z), Urls(z)) == Some(rows)
    ensures |rows| == |z| && AllAccepted(rows)
    ensures PrintedRows(rows, HostPorts(z), Auths(z)) == EntryTexts(z) && PublicUrls(rows) == Urls(z)
  {
    rows := RowsPrintBack(z, |z|);
    Whole(HostPorts(z));
    Whole(EntryTexts(z));
    Whole(Urls(z));
  }

  lemma ShownTexts(s: AppState, es: seq<Entry>)
    requires Shows(s, es)
    ensures HostPortTexts(s.servers) == HostPorts(es) && s.groups == NoOpSave.Groups(es) && s.auths == Auths(es)
  {
  }

  lemma RequestOf(s: AppState, rows: seq<ServerRow>, request: Request, texts: seq<string>, urls: seq<string>)
    requires request == Request(map[], Some(rows)) && rows != [] && AllAccepted(rows)
    requires PrintedRows(rows, HostPortTexts(s.servers), s.auths) == texts && PublicUrls(rows) == urls
    ensures RowsAcceptable(request) && TextsOf(s, request) == texts && UrlsOf(request) == urls
  {
  }

  lemma ShownIsSubmitted(s: AppState, es: seq<Entry>, z: seq<Entry>, request: Request)
    requires Shows(s, es) && |s.publicUrls| == |es| && z == Zipped(es, s.publicUrls)
    requires Clean(z) && z != [] && DistinctHostPorts(z)
    requires request == Request(map[], ShownRows(HostPortTexts(s.servers), s.groups, s.auths, s.publicUrls))
    ensures request.rows.Some? && RowsAcceptable(request)
    ensures TextsOf(s, request) == EntryTexts(z) && UrlsOf(request) == Urls(z)
  {
    SameColumns(es, s.publicUrls);
    ShownTexts(s, es);
    var rows := AllPrintBack(z);
    RequestOf(s, rows, request, EntryTexts(z), Urls(z));
  }

  // ---- a submission that loses its URLs ----

  // Text the delimiters and the strips leave alone.
  predicate Word(s: string) {
    s != "" && forall c <- s :: !IsSpace(c) && c !in {':', '#', '@', '/', '\n'}
  }

  lemma WordTrims(s: string)
    requires Word(s)
    ensures Trim(s, Whitespace) && Trim(s, SpaceOrSlash)
  {
    assert s[0] in s && s[|s| - 1] in s;
    assert !IsSpace(s[0]) && !IsSpace(s[|s| - 1]);
  }

  lemma WordStrips(s: string)
    requires Word(s)
    ensures Strip(s, Whitespace) == s && Strip(s, SpaceOrSlash) == s
  {
    WordTrims(s);
  }

  lemma PortIsWord(n: nat)
    ensures Word(IntText(n))
  {
    forall c <- IntText(n) ensures IsDigit(c) {
    }
  }

  // A server without credentials, perhaps without a public URL, and the row that submits it.
  datatype Server = Server(host: string, port: nat, group: string, url: string) {
    predicate Words() { port > 0 && Word(host) && Word(group) && (url == "" || Word(url)) }

    function ToEntry(): Entry { Entry(group, host, IntText(port), None, url) }

    function ToRow(): ServerRow { ServerRow(host, PortNumber(port), "", "", group, url) }
  }

  lemma OneLineAppend(a: string, b: string)
    requires OneLine(a) && OneLine(b)
    ensures OneLine(a + b)
  {
  }

  // host:port#group of words is one line.
  lemma TextIsLine(ip: string, port: string, group: string)
    requires Word(ip) && Word(port) && Word(group)
    ensures OneLine(ip + ":" + port + ("#" + group))
  {
    OneLineAppend(ip, ":");
    OneLineAppend(ip + ":", port);
    OneLineAppend("#", group);
    OneLineAppend(ip + ":" + port, "#" + group);
  }

  lemma BareText(e: Entry)
    requires e.auth == None && e.group != ""
    ensures EntryText(e) == e.ip + ":" + e.port + ("#" + e.group)
  {
    assert "" + e.ip == e.ip;
  }

  lemma WordsAreTidy(e: Entry)
    requires e.auth == None && Word(e.ip) && Word(e.port) && Word(e.group) && (e.publicUrl == "" || Word(e.publicUrl))
    ensures Tidy(e)
  {
    WordTrims(e.ip);
    WordTrims(e.port);
    WordTrims(e.group);
    if e.publicUrl != "" {
      WordTrims(e.publicUrl);
    }
  }

  lemma WordsAreDelimited(ip: string, port: string, group: string)
    requires Word(ip) && Word(port) && Word(group)
    ensures Delimited("", "", ip, port, group)
  {
  }

  lemma WordsAreClean(e: Entry, n: int)
    requires e.auth == None && Word(e.ip) && Word(e.port) && Word(e.group) && (e.publicUrl == "" || Word(e.publicUrl))
    requires ParseInt(e.port) == Some(n) && n != 0 && IntText(n) == e.port
    ensures Tidy(e) && DelimiterClean(e)
  {
    WordsAreTidy(e);
    WordsAreDelimited(e.ip, e.port, e.group);
    BareText(e);
    TextIsLine(e.ip, e.port, e.group);
    assert User(e) == "" && Pass(e) == "" && Trim("", Whitespace);
  }

  lemma ServerIsClean(a: Server)
    requires a.Words()
    ensures Tidy(a.ToEntry()) && DelimiterClean(a.ToEntry())
  {
    PortIsWord(a.port);
    ParseIntText(a.port);
    WordsAreClean(a.ToEntry(), a.port);
  }

  lemma ServerPrints(a: Server, servers: seq<string>, auths: seq<Auth>)
    requires a.Words()
    ensures PrintedRow(a.ToRow(), servers, auths) == EntryText(a.ToEntry())
  {
    WordStrips(a.host);
    WordStrips(a.group);
    NoPassword(a.ToRow(), servers, auths);
    BareText(a.ToEntry());
  }

  lemma ServerIsAccepted(a: Server)
    requires a.Words()
    ensures RowAccepted(a.ToRow()) && PublicUrl(a.ToRow()) == a.url
  {
    WordStrips(a.host);
    if a.url != "" {
      WordStrips(a.url);
    }
  }

  lemma NoPassword(row: ServerRow, servers: seq<string>, auths: seq<Auth>)
    requires row.ServerRow? && row.password == ""
    ensures Password(row, servers, auths) == ""
  {
    assert |SECRET_SENTINEL| > 0;
  }

  // Two servers, the later group first.
  predicate Descending(a: Server, b: Server) {
    a.Words() && b.Words() && a.url != b.url && !LexLeq(a.group, b.group)
  }

  lemma DescendingIsSubmittable(a: Server, b: Server, given: seq<Entry>)
    requires Descending(a, b) && given == [a.ToEntry(), b.ToEntry()]
    ensures Submittable(given) && !Sorted(given)
  {
    ServerIsClean(a);
    ServerIsClean(b);
    LexTotal(a.group, a.group);
    assert KeyOf(a.ToEntry()).group == a.group && KeyOf(b.ToEntry()).group == b.group;
    PairIsSubmittable(given, a.ToEntry(), b.ToEntry());
  }

  lemma PairIsSubmittable(given: seq<Entry>, d: Entry, e: Entry)
    requires given == [d, e] && Tidy(d) && DelimiterClean(d) && Tidy(e) && DelimiterClean(e)
    requires d.publicUrl != e.publicUrl && KeyOf(d) != KeyOf(e) && !KeyLeq(KeyOf(d), KeyOf(e))
    ensures Submittable(given) && !Sorted(given)
  {
    PairIsClean(given, d, e);
    PairUrls(given, d, e);
    PairKeys(given, d, e);
  }

  lemma PairIsClean(given: seq<Entry>, d: Entry, e: Entry)
    requires given == [d, e] && Tidy(d) && DelimiterClean(d) && Tidy(e) && DelimiterClean(e)
    ensures Clean(given)
  {
    assert given[0] == d && given[1] == e;
  }

  lemma PairUrls(given: seq<Entry>, d: Entry, e: Entry)
    requires given == [d, e] && d.publicUrl != e.publicUrl
    ensures NoRepeats(Urls(given))
  {
    var urls := Urls(given);
    assert urls[0] == d.publicUrl && urls[1] == e.publicUrl;
  }

  lemma PairKeys(given: seq<Entry>, d: Entry, e: Entry)
    requires given == [d, e] && KeyOf(d) != KeyOf(e) && !KeyLeq(KeyOf(d), KeyOf(e))
    ensures !Sorted(given) && forall i, j :: 0 <= i < j < |given| ==> KeyOf(given[i]) != KeyOf(given[j])
  {
    assert given[0] == d && given[1] == e;
  }

  lemma RowsPrint(rows: seq<ServerRow>, texts: seq<string>, servers: seq<string>, auths: seq<Auth>)
    requires |texts| == |rows| && forall i :: 0 <= i < |rows| ==> PrintedRow(rows[i], servers, auths) == texts[i]
    ensures PrintedRows(rows, servers, auths) == texts
  {
  }

  lemma UrlsSubmit(rows: seq<ServerRow>, urls: seq<string>)
    requires |urls| == |rows| && forall i :: 0 <= i < |rows| ==> PublicUrl(rows[i]) == urls[i]
    ensures PublicUrls(rows) == urls
  {
  }

  lemma {:induction false} RowsAreAccepted(rows: seq<ServerRow>)
    requires forall i :: 0 <= i < |rows| ==> RowAccepted(rows[i])
    ensures AllAccepted(rows)
  {
    if rows != [] {
      RowsAreAccepted(rows[..|rows| - 1]);
    }
  }

  // Rows that print as clean entries are accepted.
  lemma CleanIsAccepted(c: Config, s: AppState, request: Request, given: seq<Entry>)
    requires SERVERS in c.registry && SERVERS !in c.bootstrap && request.changes == map[] && request.rows.Some?
    requires RowsAcceptable(request) && given != [] && Clean(given)
    requires UrlsOf(request) == Urls(given) && TextsOf(s, request) == EntryTexts(given)
    ensures Submits(c, s, request, given)
  {
    ParsesBack(given);
    var texts, urls := EntryTexts(given), Urls(given);
    assert UrlsFor(Specs(texts), urls) == urls;
    assert Derivation(Specs(texts), urls);
    CanDeriveTexts(c, s, request, texts, urls);
  }

  lemma CanDeriveTexts(c: Config, s: AppState, request: Request, texts: seq<string>, urls: seq<string>)
    requires SERVERS in c.registry && SERVERS !in c.bootstrap && request.changes == map[] && request.rows.Some?
    requires RowsAcceptable(request) && texts != [] && Derivation(Specs(texts), urls)
    requires UrlsOf(request) == urls && TextsOf(s, request) == texts
    ensures Accepted(c, s, request)
  {
    assert Kept(c.registry, request.changes) == map[];
  }

  // The servers of list as the rows that submit them and as the entries they are.
  predicate Listed(list: seq<Server>, rows: seq<ServerRow>, given: seq<Entry>) {
    && |list| == |rows| == |given|
    && forall i :: 0 <= i < |list| ==> list[i].Words() && rows[i] == list[i].ToRow() && given[i] == list[i].ToEntry()
  }

  lemma ListIsAccepted(list: seq<Server>, rows: seq<ServerRow>, given: seq<Entry>)
    requires Listed(list, rows, given)
    ensures AllAccepted(rows)
  {
    forall i | 0 <= i < |rows| ensures RowAccepted(rows[i]) {
      ServerIsAccepted(list[i]);
    }
    RowsAreAccepted(rows);
  }

  lemma ListUrls(list: seq<Server>, rows: seq<ServerRow>, given: seq<Entry>)
    requires Listed(list, rows, given)
    ensures PublicUrls(rows) == Urls(given)
  {
    forall i | 0 <= i < |rows| ensures PublicUrl(rows[i]) == Urls(given)[i] {
      ServerIsAccepted(list[i]);
    }
    UrlsSubmit(rows, Urls(given));
  }

  lemma ListPrints(list: seq<Server>, rows: seq<ServerRow>, given: seq<Entry>, servers: seq<string>, auths: seq<Auth>)
    requires Listed(list, rows, given)
    ensures PrintedRows(rows, servers, auths) == EntryTexts(given)
  {
    forall i | 0 <= i < |rows| ensures PrintedRow(rows[i], servers, auths) == EntryTexts(given)[i] {
      ServerPrints(list[i], servers, auths);
    }
    RowsPrint(rows, EntryTexts(given), servers, auths);
  }

  lemma PrintedSubmits(c: Config, s: AppState, request: Request, rows: seq<ServerRow>, given: seq<Entry>)
    requires SERVERS in c.registry && SERVERS !in c.bootstrap && request == Request(map[], Some(rows))
    requires rows != [] && AllAccepted(rows) && given != [] && Clean(given)
    requires PublicUrls(rows) == Urls(given)
    requires PrintedRows(rows, HostPortTexts(s.servers), s.auths) == EntryTexts(given)
    ensures Submits(c, s, request, given)
  {
    CleanIsAccepted(c, s, request, given);
  }

  lemma ListSubmits(c: Config, s: AppState, list: seq<Server>, request: Request, rows: seq<ServerRow>,
                    given: seq<Entry>)
    requires SERVERS in c.registry && SERVERS !in c.bootstrap && Listed(list, rows, given) && given != []
    requires request == Request(map[], Some(rows)) && Clean(given)
    ensures Submits(c, s, request, given)
  {
    ListIsAccepted(list, rows, given);
    ListUrls(list, rows, given);
    ListPrints(list, rows, given, HostPortTexts(s.servers), s.auths);
    PrintedSubmits(c, s, request, rows, given);
  }

  // Submitting them is accepted whatever is configured; and unless sorting leaves the column of
  // their URLs as it is, the URLs are in no state the save can leave those of the servers
  // beside them.
  lemma UnsortedLosesUrls(c: Config, s: AppState, list: seq<Server>, request: Request, rows: seq<ServerRow>,
                          given: seq<Entry>, es: seq<Entry>)
    requires SERVERS in c.registry && SERVERS !in c.bootstrap && Listed(list, rows, given)
    requires request == Request(map[], Some(rows)) && Submittable(given)
    requires IsSortOf(es, Elements(given)) && Urls(es) != Urls(given)
    ensures Submits(c, s, request, given)
    ensures forall t :: Saved(c, s, request, t) ==> !Paired(t, given)
  {
    ListSubmits(c, s, list, request, rows, given);
    forall t | Saved(c, s, request, t) ensures !Paired(t, given) {
      UrlsAlignedIff(c, s, request, t, given, es);
    }
  }

  lemma PairIsListed(a: Server, b: Server, rows: seq<ServerRow>, given: seq<Entry>)
    requires a.Words() && b.Words() && rows == [a.ToRow(), b.ToRow()] && given == [a.ToEntry(), b.ToEntry()]
    ensures Listed([a, b], rows, given)
  {
  }

  lemma PairReversed(a: Server, b: Server, given: seq<Entry>, es: seq<Entry>)
    requires Descending(a, b) && given == [a.ToEntry(), b.ToEntry()] && es == [b.ToEntry(), a.ToEntry()]
    ensures IsSortOf(es, Elements(given)) && Urls(es) != Urls(given)
  {
    LexTotal(a.group, b.group);
    assert KeyOf(a.ToEntry()).group == a.group && KeyOf(b.ToEntry()).group == b.group;
    assert es[0] == given[1] && es[1] == given[0];
    assert forall e :: e in es <==> e in given;
    assert Urls(es)[0] == b.url && Urls(given)[0] == a.url;
  }

  // Two servers, the later group first, of which one may have no public URL.
  lemma DescendingLosesUrls(c: Config, s: AppState, a: Server, b: Server, request: Request, rows: seq<ServerRow>,
                            given: seq<Entry>)
    requires SERVERS in c.registry && SERVERS !in c.bootstrap && Descending(a, b)
    requires rows == [a.ToRow(), b.ToRow()] && given == [a.ToEntry(), b.ToEntry()]
    requires request == Request(map[], Some(rows))
    ensures Submits(c, s, request, given)
    ensures forall t :: Saved(c, s, request, t) ==> !Paired(t, given)
  {
    DescendingIsSubmittable(a, b, given);
    PairIsListed(a, b, rows, given);
    PairReversed(a, b, given, [b.ToEntry(), a.ToEntry()]);
    UnsortedLosesUrls(c, s, [a, b], request, rows, given, [b.ToEntry(), a.ToEntry()]);
  }
}
