/**
  The Loon request script's entry point (redbook/ua_presets.js:60-213): pick the
  active preset, copy the request headers, overwrite the User-Agent and the
  client hints, and, for the "mac" preset only, merge the cookies and adjust
  `sec-fetch-site`. The host's globals (`$request`, `$argument`, the persistent
  store and `$done`) become the method's parameters and results.
 */
module HeaderRewriter {
  import opened Wrappers
  import opened Text
  import opened Headers
  import opened LoonPresets
  import opened CookieMerge

  /** `$request`, reduced to its headers (None when it has none). */
  datatype Request = Request(headers: Option<Headers>)

  /** What the script hands to `$done`: `{}` or `{ headers }`. */
  datatype Done = NoChange | Replace(headers: Headers)

  /** `a || fallback` on a header lookup. */
  function Or(a: Option<HeaderValue>, fallback: HeaderValue): (r: HeaderValue)
    ensures a.Some? && Truthy(a.value) ==> r == a.value
    ensures (a.None? || !Truthy(a.value)) ==> r == fallback
  {
    if a.Some? && Truthy(a.value) then a.value else fallback
  }

  const FetchSiteNames: set<string> := {"sec-fetch-site", "Sec-Fetch-Site"}

  /** `headers['sec-fetch-dest'] || headers['Sec-Fetch-Dest'] || ''`. */
  function FetchDest(h: Headers): HeaderValue
  {
    Or(Get(h, "sec-fetch-dest"), Or(Get(h, "Sec-Fetch-Dest"), Str("")))
  }

  /** `headers['sec-fetch-site'] || headers['Sec-Fetch-Site'] || 'same-site'`. */
  function CurrentSite(h: Headers): HeaderValue
  {
    Or(Get(h, "sec-fetch-site"), Or(Get(h, "Sec-Fetch-Site"), Str("same-site")))
  }

  /** A strict comparison with one of the two same-site values. */
  predicate SameSiteRequest(v: HeaderValue)
  {
    v == Str("same-origin") || v == Str("same-site")
  }

  function SetFetchSite(h: Headers, site: string): Headers
  {
    Put(Put(h, "sec-fetch-site", Str(site)), "Sec-Fetch-Site", Str(site))
  }

  /**
    Lines 172-183. A destination that is not a string has no `toLowerCase`:
    the call throws, the surrounding `catch` swallows it, and the headers stay
    as the cookie merge left them.
   */
  function FetchSiteRule(h: Headers): Headers
  {
    match FetchDest(h)
    case Str(dest) =>
      if Lower(dest) == "document" then SetFetchSite(h, "none")
      else if SameSiteRequest(CurrentSite(h)) then SetFetchSite(h, "same-site")
      else h
    case _ => h
  }

  /** The headers the script hands back for the active key `key`. */
  function RewriteHeaders(key: string, h: Headers): Headers
  {
    RewriteWith(key == "mac", HintsFor(PresetFor(key)), h)
  }

  /** The rewrite for given identity values, with or without the "mac" extras. */
  function RewriteWith(mac: bool, v: Hints, h: Headers): Headers
  {
    var withHints := ApplyHints(h, v);
    if mac then FetchSiteRule(MergeCookies(withHints)) else withHints
  }

  /**
    The script as it runs: the result for `$done`, and the key written to the
    persistent store, if any. `argument` is `$argument.preset`; `stored` is the
    value the store holds under `StoreKey`.
   */
  method Rewrite(request: Option<Request>, argument: Option<string>, stored: Option<string>)
    returns (done: Done, write: Option<string>)
    ensures request.None? ==> done == NoChange && write.None?
    ensures request.Some? ==>
      var res := ResolvePreset(argument, stored);
      && write == res.write
      && done == Replace(RewriteHeaders(res.key, if request.value.headers.Some? then request.value.headers.value else []))
  {
    if request.None? {
      return NoChange, None;
    }
    var presetKey := DefaultPreset;
    write := None;
    if argument.Some? && argument.value != [] {
      presetKey := argument.value;
      if presetKey != [] && presetKey in Presets {
        write := Some(presetKey);
      }
    } else if stored.Some? {
      var v := stored.value;
      if v != [] && v in Presets {
        presetKey := v;
      }
    }
    var preset := PresetFor(presetKey);
    var headers := if request.value.headers.Some? then request.value.headers.value else [];
    headers := SetIdentity(headers, preset);
    if presetKey == "mac" {
      headers := MergeCookieHeaders(headers);
      headers := AdjustFetchSite(headers);
    }
    done := Replace(headers);
  }

  /** Lines 85-99: the User-Agent and client-hint assignments. */
  method SetIdentity(h: Headers, preset: Preset) returns (headers: Headers)
    ensures headers == ApplyClientHints(h, preset)
  {
    ghost var v := HintsFor(preset);
    headers := SetUserAgent(h, preset);
    ghost var withUa := headers;
    headers := SetClientHints(headers, preset);
    LowerHintsWritten(withUa, v);
    headers := MirrorClientHints(headers, v);
    PutAllAppend(h, UserAgentAssignments(v), LowerHintAssignments(v));
    PutAllAppend(h, UserAgentAssignments(v) + LowerHintAssignments(v), MirrorAssignments(v));
  }

  /** Lines 85-86. */
  method SetUserAgent(h: Headers, preset: Preset) returns (headers: Headers)
    ensures headers == PutAll(h, UserAgentAssignments(HintsFor(preset)))
  {
    headers := Put(h, "User-Agent", Str(preset.ua));
    ghost var h1 := headers;
    headers := Put(headers, "user-agent", Str(preset.ua));
    PutAllOfSteps(h, UserAgentAssignments(HintsFor(preset)), [h, h1, headers]);
  }

  /** Lines 90-94: the values come from the preset. */
  method SetClientHints(h: Headers, preset: Preset) returns (headers: Headers)
    ensures headers == PutAll(h, LowerHintAssignments(HintsFor(preset)))
  {
    var scua := BuildSecChUa(Some(preset.brands));
    headers := Put(h, "sec-ch-ua", Str(scua));
    ghost var h1 := headers;
    headers := Put(headers, "sec-ch-ua-mobile", Str(if preset.mobile == "1" then "?1" else "?0"));
    ghost var h2 := headers;
    headers := Put(headers, "sec-ch-ua-platform", Str("\"" + preset.platform + "\""));
    ghost var h3 := headers;
    headers := Put(headers, "sec-ch-ua-full-version-list", Str(FullVersionList(preset.brands)));
    PutAllOfSteps(h, LowerHintAssignments(HintsFor(preset)), [h, h1, h2, h3, headers]);
  }

  /** Lines 97-99: each capitalised hint copies the value its lower-case twin holds. */
  method MirrorClientHints(h: Headers, ghost v: Hints) returns (headers: Headers)
    requires Get(h, "sec-ch-ua") == Some(Str(v.secChUa))
    requires Get(h, "sec-ch-ua-mobile") == Some(Str(v.mobile))
    requires Get(h, "sec-ch-ua-platform") == Some(Str(v.platform))
    ensures headers == PutAll(h, MirrorAssignments(v))
  {
    headers := Put(h, "Sec-CH-UA", Get(h, "sec-ch-ua").value);
    ghost var h1 := headers;
    assert Get(h1, "sec-ch-ua-mobile") == Some(Str(v.mobile));
    assert Get(h1, "sec-ch-ua-platform") == Some(Str(v.platform));
    headers := Put(headers, "Sec-CH-UA-Mobile", Get(headers, "sec-ch-ua-mobile").value);
    ghost var h2 := headers;
    assert Get(h2, "sec-ch-ua-platform") == Some(Str(v.platform));
    headers := Put(headers, "Sec-CH-UA-Platform", Get(headers, "sec-ch-ua-platform").value);
    PutAllOfSteps(h, MirrorAssignments(v), [h, h1, h2, headers]);
  }

  /** Lines 106-167: collect, process and join the cookie pairs, drop the cookie headers, add the merged one. */
  method MergeCookieHeaders(h: Headers) returns (headers: Headers)
    ensures headers == MergeCookies(h)
  {
    var allCookies := CollectCookies(h);
    var processedCookies := ProcessCookies(allCookies);
    var mergedCookie := Join(processedCookies, "; ");
    headers := RemoveCookieHeaders(h);
    headers := Put(headers, "cookie", Str(mergedCookie));
  }

  /** Lines 172-183: the `sec-fetch-site` adjustment, inside the script's try/catch. */
  method AdjustFetchSite(h: Headers) returns (headers: Headers)
    ensures headers == FetchSiteRule(h)
  {
    headers := h;
    var fetchDest := Or(Get(headers, "sec-fetch-dest"), Or(Get(headers, "Sec-Fetch-Dest"), Str("")));
    if fetchDest.Str? {
      if Lower(fetchDest.s) == "document" {
        headers := Put(headers, "sec-fetch-site", Str("none"));
        headers := Put(headers, "Sec-Fetch-Site", Str("none"));
      } else {
        var currentSite := Or(Get(headers, "sec-fetch-site"), Or(Get(headers, "Sec-Fetch-Site"), Str("same-site")));
        if currentSite == Str("same-origin") || currentSite == Str("same-site") {
          headers := Put(headers, "sec-fetch-site", Str("same-site"));
          headers := Put(headers, "Sec-Fetch-Site", Str("same-site"));
        }
      }
    }
  }

  // ------------------------------------------------ lookup-level specification

  /** What the fetch-site rule gives `sec-fetch-site` and `Sec-Fetch-Site`. */
  function FetchSiteValue(h: Headers, n: string): Option<HeaderValue>
  {
    match FetchDest(h)
    case Str(dest) =>
      if Lower(dest) == "document" then Some(Str("none"))
      else if SameSiteRequest(CurrentSite(h)) then Some(Str("same-site"))
      else Get(h, n)
    case _ => Get(h, n)
  }

  /**
    The rewritten headers described name by name, independently of the order
    of the assignments: the identity names take the preset's values; for
    "mac", `cookie` holds the merged value, every other cookie-named header is
    gone and the two fetch-site names follow the rule; all else is untouched.
   */
  function ExpectedValue(mac: bool, v: Hints, h: Headers, n: string): Option<HeaderValue>
  {
    if n in IdentityNames then IdentityValue(v, n)
    else if !mac then Get(h, n)
    else if n == "cookie" then Some(Str(MergedCookie(h)))
    else if IsCookieName(n) then None
    else if n in FetchSiteNames then FetchSiteValue(h, n)
    else Get(h, n)
  }

  /** The identity assignments touch no cookie header, so the merge sees the original pairs. */
  lemma HintsKeepPairs(h: Headers, v: Hints)
    ensures CollectedPairs(ApplyHints(h, v)) == CollectedPairs(h)
  {
    HintAssignmentsUnique(v);
    forall i | 0 <= i < |HintAssignments(v)| ensures !IsCookieName(HintAssignments(v)[i].0) {
      IdentityNotCookie(HintAssignments(v)[i].0);
    }
    CollectedPairsPutAll(h, HintAssignments(v));
  }

  lemma FetchSiteRuleGet(h: Headers, n: string)
    ensures Get(FetchSiteRule(h), n) == if n in FetchSiteNames then FetchSiteValue(h, n) else Get(h, n)
  {
  }

  lemma FetchSiteRuleKeepsPairs(h: Headers)
    ensures CollectedPairs(FetchSiteRule(h)) == CollectedPairs(h)
  {
    match FetchDest(h)
    case Str(dest) =>
      if Lower(dest) == "document" {
        CollectedPairsPut(h, "sec-fetch-site", Str("none"));
        CollectedPairsPut(Put(h, "sec-fetch-site", Str("none")), "Sec-Fetch-Site", Str("none"));
      } else if SameSiteRequest(CurrentSite(h)) {
        CollectedPairsPut(h, "sec-fetch-site", Str("same-site"));
        CollectedPairsPut(Put(h, "sec-fetch-site", Str("same-site")), "Sec-Fetch-Site", Str("same-site"));
      }
    case _ =>
  }

  /** The four names the fetch-site rule reads. */
  const FetchInputNames: set<string> := {"sec-fetch-dest", "Sec-Fetch-Dest", "sec-fetch-site", "Sec-Fetch-Site"}

  /** The fetch-site rule reads only four names: headers agreeing on them get the same site values. */
  lemma FetchSiteValueAgree(a: Headers, b: Headers, n: string)
    requires forall k :: k in FetchInputNames ==> Get(a, k) == Get(b, k)
    requires n in FetchSiteNames
    ensures FetchSiteValue(a, n) == FetchSiteValue(b, n)
  {
    assert Get(a, "sec-fetch-dest") == Get(b, "sec-fetch-dest");
    assert Get(a, "Sec-Fetch-Dest") == Get(b, "Sec-Fetch-Dest");
    assert Get(a, "sec-fetch-site") == Get(b, "sec-fetch-site");
    assert Get(a, "Sec-Fetch-Site") == Get(b, "Sec-Fetch-Site");
    assert FetchDest(a) == FetchDest(b);
    assert CurrentSite(a) == CurrentSite(b);
  }

  /** Once the site names hold what the rule decided, the rule decides the same again. */
  lemma FetchSiteStable(h: Headers, r: Headers, n: string)
    requires Get(r, "sec-fetch-dest") == Get(h, "sec-fetch-dest")
    requires Get(r, "Sec-Fetch-Dest") == Get(h, "Sec-Fetch-Dest")
    requires Get(r, "sec-fetch-site") == FetchSiteValue(h, "sec-fetch-site")
    requires Get(r, "Sec-Fetch-Site") == FetchSiteValue(h, "Sec-Fetch-Site")
    requires n in FetchSiteNames
    ensures FetchSiteValue(r, n) == Get(r, n)
  {
    assert FetchDest(r) == FetchDest(h);
  }

  /** The four inputs of the rule are neither identity nor cookie names. */
  lemma FetchInputsAreOthers(k: string)
    requires k in FetchInputNames
    ensures k !in IdentityNames && k != "cookie" && !IsCookieName(k)
  {
    assert |Lower(k)| == |k|;
  }

  /** The identity assignments and the merge leave the rule's inputs alone. */
  lemma MergedKeepsFetchInputs(h: Headers, v: Hints)
    ensures forall k :: k in FetchInputNames ==> Get(MergeCookies(ApplyHints(h, v)), k) == Get(h, k)
  {
    forall k | k in FetchInputNames ensures Get(MergeCookies(ApplyHints(h, v)), k) == Get(h, k) {
      FetchInputsAreOthers(k);
      MergedKeeps(h, v, k);
    }
  }

  /** A name outside the identity and cookie names reads the same after the assignments and the merge. */
  lemma MergedKeeps(h: Headers, v: Hints, n: string)
    requires n !in IdentityNames && !IsCookieName(n)
    ensures Get(MergeCookies(ApplyHints(h, v)), n) == Get(h, n)
  {
    HintsGet(h, v, n);
    MergeCookiesLookup(ApplyHints(h, v), n);
  }

  /** The "mac" rewrite name by name, for merged headers `m` built from the identity-assigned headers. */
  lemma MacLookup(h: Headers, v: Hints, m: Headers, n: string)
    requires m == MergeCookies(ApplyHints(h, v))
    ensures Get(FetchSiteRule(m), n) == ExpectedValue(true, v, h, n)
  {
    FetchSiteRuleGet(m, n);
    if n in FetchSiteNames {
      MacFetchSite(h, v, m, n);
    } else {
      MacOther(h, v, m, n);
    }
  }

  /** Off the fetch-site names, the "mac" rewrite reads as the merge left the identity-assigned headers. */
  lemma MacOther(h: Headers, v: Hints, m: Headers, n: string)
    requires m == MergeCookies(ApplyHints(h, v)) && n !in FetchSiteNames
    ensures Get(m, n) == ExpectedValue(true, v, h, n)
  {
    var w := ApplyHints(h, v);
    HintsGet(h, v, n);
    MergeCookiesLookup(w, n);
    HintsKeepPairs(h, v);
    assert MergedCookie(w) == MergedCookie(h);
    if n in IdentityNames {
      IdentityNotCookie(n);
    }
  }

  /** On the fetch-site names, the rule sees the same inputs as in the original headers. */
  lemma MacFetchSite(h: Headers, v: Hints, m: Headers, n: string)
    requires m == MergeCookies(ApplyHints(h, v)) && n in FetchSiteNames
    ensures FetchSiteValue(m, n) == ExpectedValue(true, v, h, n)
  {
    FetchInputsAreOthers(n);
    MergedKeepsFetchInputs(h, v);
    FetchSiteValueAgree(m, h, n);
  }

  /** Every name of the rewritten headers reads as `ExpectedValue` says. */
  lemma RewriteWithLookup(mac: bool, v: Hints, h: Headers, n: string)
    ensures Get(RewriteWith(mac, v, h), n) == ExpectedValue(mac, v, h, n)
  {
    if mac {
      MacLookup(h, v, MergeCookies(ApplyHints(h, v)), n);
    } else {
      HintsGet(h, v, n);
    }
  }

  lemma RewriteLookup(key: string, h: Headers, n: string)
    ensures Get(RewriteHeaders(key, h), n) == ExpectedValue(key == "mac", HintsFor(PresetFor(key)), h, n)
  {
    RewriteWithLookup(key == "mac", HintsFor(PresetFor(key)), h, n);
  }

  /** A key outside the table gets the "mac" identity but no cookie or fetch-site rewrite. */
  lemma UnknownKeyIdentityOnly(key: string, h: Headers)
    requires key !in Presets
    ensures RewriteHeaders(key, h) == ApplyClientHints(h, Presets[DefaultPreset])
    ensures forall n :: n !in IdentityNames ==> Get(RewriteHeaders(key, h), n) == Get(h, n)
  {
    assert key != "mac";
    forall n | n !in IdentityNames ensures Get(RewriteHeaders(key, h), n) == Get(h, n) {
      RewriteLookup(key, h, n);
    }
  }

  /** Under "mac" both fetch-site names read as the rule decides. */
  lemma MacFetchSiteLookup(h: Headers, n: string)
    requires n in FetchSiteNames
    ensures Get(RewriteHeaders("mac", h), n) == FetchSiteValue(h, n)
  {
    var v := HintsFor(PresetFor("mac"));
    FetchSiteRuleGet(MergeCookies(ApplyHints(h, v)), n);
    MacFetchSite(h, v, MergeCookies(ApplyHints(h, v)), n);
    FetchInputsAreOthers(n);
  }

  /** A navigation request under "mac" leaves with `sec-fetch-site: none` in both casings. */
  lemma DocumentNavigationIsNone(h: Headers)
    requires FetchDest(h).Str? && Lower(FetchDest(h).s) == "document"
    ensures Get(RewriteHeaders("mac", h), "sec-fetch-site") == Some(Str("none"))
    ensures Get(RewriteHeaders("mac", h), "Sec-Fetch-Site") == Some(Str("none"))
  {
    MacFetchSiteLookup(h, "sec-fetch-site");
    MacFetchSiteLookup(h, "Sec-Fetch-Site");
  }

  /**
    Under "mac", a non-navigation request whose site is same-origin or
    same-site (or unset) leaves as same-site; any other site value is kept.
   */
  lemma SubresourceFetchSite(h: Headers)
    requires FetchDest(h).Str? && Lower(FetchDest(h).s) != "document"
    ensures SameSiteRequest(CurrentSite(h)) ==>
      Get(RewriteHeaders("mac", h), "sec-fetch-site") == Some(Str("same-site")) &&
      Get(RewriteHeaders("mac", h), "Sec-Fetch-Site") == Some(Str("same-site"))
    ensures !SameSiteRequest(CurrentSite(h)) ==>
      Get(RewriteHeaders("mac", h), "sec-fetch-site") == Get(h, "sec-fetch-site") &&
      Get(RewriteHeaders("mac", h), "Sec-Fetch-Site") == Get(h, "Sec-Fetch-Site")
  {
    MacFetchSiteLookup(h, "sec-fetch-site");
    MacFetchSiteLookup(h, "Sec-Fetch-Site");
  }

  /** A destination that is not a string stops the rule: both fetch-site headers keep their values. */
  lemma NonStringDestinationKeepsSite(h: Headers)
    requires !FetchDest(h).Str?
    ensures Get(RewriteHeaders("mac", h), "sec-fetch-site") == Get(h, "sec-fetch-site")
    ensures Get(RewriteHeaders("mac", h), "Sec-Fetch-Site") == Get(h, "Sec-Fetch-Site")
  {
    MacFetchSiteLookup(h, "sec-fetch-site");
    MacFetchSiteLookup(h, "Sec-Fetch-Site");
  }

  /** A request with no fetch-site headers at all counts as same-site. */
  lemma MissingSiteIsSameSite(h: Headers)
    requires Get(h, "sec-fetch-site").None? && Get(h, "Sec-Fetch-Site").None?
    ensures SameSiteRequest(CurrentSite(h))
  {
  }

  /** The cookie merge leaves exactly one cookie-named header, named `cookie`. */
  lemma MacSingleCookieHeader(h: Headers, n: string)
    requires IsCookieName(n)
    ensures Get(RewriteHeaders("mac", h), n) == if n == "cookie" then Some(Str(MergedCookie(h))) else None
  {
    RewriteLookup("mac", h, n);
    if n in IdentityNames {
      IdentityNotCookie(n);
    }
  }

  /** A second run under the same key answers every lookup as the first run did. */
  lemma RewriteIdempotent(key: string, h: Headers)
    ensures SameMapping(RewriteHeaders(key, RewriteHeaders(key, h)), RewriteHeaders(key, h))
  {
    RewriteWithIdempotent(key == "mac", HintsFor(PresetFor(key)), h);
  }

  lemma RewriteWithIdempotent(mac: bool, v: Hints, h: Headers)
    ensures SameMapping(RewriteWith(mac, v, RewriteWith(mac, v, h)), RewriteWith(mac, v, h))
  {
    var r := RewriteWith(mac, v, h);
    forall n ensures Get(RewriteWith(mac, v, r), n) == Get(r, n) {
      SecondRunLookup(mac, v, h, r, n);
    }
  }

  lemma SecondRunLookup(mac: bool, v: Hints, h: Headers, r: Headers, n: string)
    requires r == RewriteWith(mac, v, h)
    ensures Get(RewriteWith(mac, v, r), n) == Get(r, n)
  {
    RewriteWithLookup(mac, v, r, n);
    RewriteWithLookup(mac, v, h, n);
    if mac && n !in IdentityNames {
      if n == "cookie" {
        SecondMergeSameCookie(v, h);
      } else if n in FetchSiteNames {
        SecondFetchSite(v, h, r, n);
      }
    }
  }

  /** After one run the fetch-site rule has nothing left to change. */
  lemma SecondFetchSite(v: Hints, h: Headers, r: Headers, n: string)
    requires r == RewriteWith(true, v, h) && n in FetchSiteNames
    ensures FetchSiteValue(r, n) == Get(r, n)
  {
    var m := MergeCookies(ApplyHints(h, v));
    MergedKeepsFetchInputs(h, v);
    FetchSiteRuleGet(m, "sec-fetch-dest");
    FetchSiteRuleGet(m, "Sec-Fetch-Dest");
    RuleSiteValues(h, m);
    FetchSiteStable(h, r, n);
  }

  /** The site names after the rule, for merged headers that agree with the original on the rule's inputs. */
  lemma RuleSiteValues(h: Headers, m: Headers)
    requires forall k :: k in FetchInputNames ==> Get(m, k) == Get(h, k)
    ensures Get(FetchSiteRule(m), "sec-fetch-site") == FetchSiteValue(h, "sec-fetch-site")
    ensures Get(FetchSiteRule(m), "Sec-Fetch-Site") == FetchSiteValue(h, "Sec-Fetch-Site")
  {
    FetchSiteRuleGet(m, "sec-fetch-site");
    FetchSiteRuleGet(m, "Sec-Fetch-Site");
    FetchSiteValueAgree(m, h, "sec-fetch-site");
    FetchSiteValueAgree(m, h, "Sec-Fetch-Site");
  }

  /** Merging the merged cookie again produces the same value. */
  lemma SecondMergeSameCookie(v: Hints, h: Headers)
    ensures MergedCookie(RewriteWith(true, v, h)) == MergedCookie(h)
  {
    var withHints := ApplyHints(h, v);
    var merged := MergeCookies(withHints);
    HintsKeepPairs(h, v);
    FetchSiteRuleKeepsPairs(merged);
    CollectedPairsOfMerged(withHints);
    assert CollectedPairs(RewriteWith(true, v, h)) == CookieSegments(MergedCookie(h));
    MergeIdempotent(h);
  }

  /** Rewriting never gives a header object two properties of one name. */
  lemma RewriteKeepsNamesUnique(key: string, h: Headers)
    requires UniqueNames(h)
    ensures UniqueNames(RewriteHeaders(key, h))
  {
    RewriteWithKeepsNamesUnique(key == "mac", HintsFor(PresetFor(key)), h);
  }

  lemma RewriteWithKeepsNamesUnique(mac: bool, v: Hints, h: Headers)
    requires UniqueNames(h)
    ensures UniqueNames(RewriteWith(mac, v, h))
  {
    var w := ApplyHints(h, v);
    PutAllUnique(h, HintAssignments(v));
    if mac {
      var m := MergeCookies(w);
      WithoutCookiesShape(w);
      PutUnique(WithoutCookies(w), "cookie", Str(MergedCookie(w)));
      PutUnique(m, "sec-fetch-site", Str("none"));
      PutUnique(Put(m, "sec-fetch-site", Str("none")), "Sec-Fetch-Site", Str("none"));
      PutUnique(m, "sec-fetch-site", Str("same-site"));
      PutUnique(Put(m, "sec-fetch-site", Str("same-site")), "Sec-Fetch-Site", Str("same-site"));
    }
  }

  /** The example cookie value splits into its three pairs. */
  lemma ScenarioSegments(cookie: string)
    requires cookie == "a=1; xsecappid=old; b=2"
    ensures CookieSegments(cookie) == ["a=1", "xsecappid=old", "b=2"]
  {
    var pairs := ["a=1", "xsecappid=old", "b=2"];
    ScenarioJoinedBefore(pairs);
    ScenarioPairsWellFormed(pairs);
    CookieSegmentsOfJoin(pairs);
  }

  lemma ScenarioPairsWellFormed(pairs: seq<string>)
    requires pairs == ["a=1", "xsecappid=old", "b=2"]
    ensures forall i :: 0 <= i < |pairs| ==> WellFormedPair(pairs[i])
  {
    forall i | 0 <= i < |pairs| ensures WellFormedPair(pairs[i]) {
      var p := pairs[i];
      assert p[0] != ' ' && p[|p| - 1] != ' ' && ';' !in p;
      TrimOfTrimmed(p);
    }
  }

  lemma ScenarioJoinedBefore(ps: seq<string>)
    requires ps == ["a=1", "xsecappid=old", "b=2"]
    ensures Join(ps, "; ") == "a=1; xsecappid=old; b=2"
  {
    assert ps[1..][1..] == ["b=2"];
    assert Join(ps[1..], "; ") == "xsecappid=old" + "; " + "b=2";
    var s := "a=1" + "; " + ("xsecappid=old" + "; " + "b=2");
    var t := "a=1; xsecappid=old; b=2";
    assert Join(ps, "; ") == s;
    assert |s| == |t|;
    forall i | 0 <= i < |s| ensures s[i] == t[i] {}
  }

  /** The cookie pairs of a request with a plain User-Agent and one cookie header. */
  lemma ScenarioCollected(h: Headers, cookie: string)
    requires h == [("User-Agent", Str("curl/8.0")), ("cookie", Str(cookie))]
    ensures CollectedPairs(h) == CookieSegments(cookie)
  {
    NoCookieHeadersNoPairs([h[0]]);
    assert h[..1] == [h[0]];
    assert IsCookieName("cookie");
  }

  lemma ScenarioProcessed(pairs: seq<string>)
    requires pairs == ["a=1", "xsecappid=old", "b=2"]
    ensures ProcessPairs(pairs) == ["a=1", AppIdPair, "b=2"]
  {
    TrimOfTrimmed("a=1");
    TrimOfTrimmed("xsecappid=old");
    TrimOfTrimmed("b=2");
    assert RewritePairs(pairs) == ["a=1", AppIdPair, "b=2"] by {
      assert pairs[..2][..1] == ["a=1"];
      assert pairs[..2] == ["a=1", "xsecappid=old"];
      assert RewritePairs(["a=1"]) == ["a=1"];
      assert StartsWith("xsecappid=old", AppIdPrefix);
      assert RewritePairs(pairs[..2]) == ["a=1", AppIdPair];
    }
    assert AppIdCount(pairs) > 0 by {
      RewriteKeepsAppIdCount(pairs);
      assert Trim(AppIdPair) == AppIdPair by {
        TrimOfTrimmed(AppIdPair);
      }
      assert ["a=1", AppIdPair, "b=2"][..2] == ["a=1", AppIdPair];
      assert Count(["a=1", AppIdPair], IsAppIdPair) >= 1;
    }
  }

  lemma ScenarioJoined(ps: seq<string>)
    requires ps == ["a=1", AppIdPair, "b=2"]
    ensures Join(ps, "; ") == "a=1; xsecappid=xhs-pc-web; b=2"
  {
    assert ps[1..][1..] == ["b=2"];
    assert Join(ps[1..], "; ") == AppIdPair + "; " + "b=2";
    var s := "a=1" + "; " + (AppIdPair + "; " + "b=2");
    var t := "a=1; xsecappid=xhs-pc-web; b=2";
    assert Join(ps, "; ") == s;
    assert |s| == |t|;
    forall i | 0 <= i < |s| ensures s[i] == t[i] {}
  }

  /** The merged value for that request. */
  lemma ScenarioMerged(h: Headers)
    requires h == [("User-Agent", Str("curl/8.0")), ("cookie", Str("a=1; xsecappid=old; b=2"))]
    ensures MergedCookie(h) == "a=1; xsecappid=xhs-pc-web; b=2"
  {
    ScenarioCollected(h, "a=1; xsecappid=old; b=2");
    ScenarioSegments("a=1; xsecappid=old; b=2");
    ScenarioProcessed(CollectedPairs(h));
    ScenarioJoined(ProcessPairs(CollectedPairs(h)));
  }

  /**
    A request carrying `cookie: a=1; xsecappid=old; b=2` leaves, under "mac",
    with the app id forced to the PC web client and the other pairs in place.
   */
  lemma CookieScenario(h: Headers)
    requires h == [("User-Agent", Str("curl/8.0")), ("cookie", Str("a=1; xsecappid=old; b=2"))]
    ensures Get(RewriteHeaders("mac", h), "cookie") == Some(Str("a=1; xsecappid=xhs-pc-web; b=2"))
  {
    ScenarioMerged(h);
    MacSingleCookieHeader(h, "cookie");
  }
}
