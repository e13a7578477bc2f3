/** A browser brand and version, as both preset tables list them. */
module Brands {

  datatype Brand = Brand(brand: string, version: string)
}

/**
  The request-rewriting script's side of the presets (redbook/ua_presets.js):
  its preset table, the `sec-ch-ua` builders, the client-hint headers it
  assigns, and the choice of the active preset from the script argument and
  the persisted selection.
 */
module LoonPresets {
  import opened Wrappers
  import opened Text
  import opened Brands
  import opened Headers

  /** One row of the table; `mobile` is the string "1" or "0", as the script stores it. */
  datatype Preset = Preset(ua: string, platform: string, mobile: string, brands: seq<Brand>)

  const DefaultPreset: string := "mac"

  /** The persistent-store key under which an explicit choice is remembered. */
  const StoreKey: string := "XHS_UA_PRESET"

  const Presets: map<string, Preset> := map[
    "ios" := Preset(
      "Mozilla/5.0 (iPhone; CPU iPhone OS 17_0 like Mac OS X) AppleWebKit/605.1.15 (KHTML, like Gecko) Version/17.0 Mobile/15E148 Safari/605.1.15",
      "iPhone", "1", [Brand("Safari", "17")]),
    "mac" := Preset(
      "Mozilla/5.0 (Macintosh; Intel Mac OS X 10_15_7) AppleWebKit/537.36 (KHTML, like Gecko) Chrome/141.0.0.0 Safari/537.36",
      "macOS", "0", [Brand("Google Chrome", "141"), Brand("Not?A_Brand", "8"), Brand("Chromium", "141")]),
    "ipad" := Preset(
      "Mozilla/5.0 (iPad; CPU OS 17_0 like Mac OS X) AppleWebKit/605.1.15 (KHTML, like Gecko) Version/17.0 Mobile/15E148 Safari/605.1.15",
      "iPad", "1", [Brand("Safari", "17")]),
    "android" := Preset(
      "Mozilla/5.0 (Linux; Android 14; Pixel 8) AppleWebKit/537.36 (KHTML, like Gecko) Chrome/120.0.0.0 Mobile Safari/537.36",
      "Android", "1", [Brand("Chromium", "120"), Brand("Google Chrome", "120")]),
    "windows" := Preset(
      "Mozilla/5.0 (Windows NT 10.0; Win64; x64) AppleWebKit/537.36 (KHTML, like Gecko) Chrome/120.0.0.0 Safari/537.36",
      "Windows", "0", [Brand("Chromium", "120"), Brand("Google Chrome", "120")]),
    "linux" := Preset(
      "Mozilla/5.0 (X11; Linux x86_64) AppleWebKit/537.36 (KHTML, like Gecko) Chrome/120.0.0.0 Safari/537.36",
      "Linux", "0", [Brand("Chromium", "120"), Brand("Google Chrome", "120")])
  ]

  /** `PRESETS[key] || PRESETS[DEFAULT_PRESET]`. */
  function PresetFor(key: string): (p: Preset)
    ensures key in Presets ==> p == Presets[key]
    ensures key !in Presets ==> p == Presets[DefaultPreset]
  {
    if key in Presets then Presets[key] else Presets[DefaultPreset]
  }

  // ---------------------------------------------------------------- sec-ch-ua

  /** What the script emits for a missing or empty brand list. */
  const NoBrandsToken: string := "\"Not A;Brand\";v=\"99\""

  /** The greased entry the script appends after the real brands, as written. */
  const GreaseEntry: string := "\";Not A Brand\";v=\"99\""

  /** `String(version || '').split('.')[0] || '0'`. */
  function MajorVersion(version: string): (r: string)
    ensures r != [] && '.' !in r
    ensures version == [] || version[0] == '.' ==> r == "0"
    ensures version != [] && version[0] != '.' ==>
      StartsWith(version, r) && (|r| == |version| || version[|r|] == '.')
  {
    var head := Split(version, '.')[0];
    SplitHead(version, '.');
    SplitPieces(version, '.');
    if head == [] then "0" else head
  }

  function SecChUaEntry(b: Brand): string
  {
    "\"" + b.brand + "\";v=\"" + MajorVersion(b.version) + "\""
  }

  function SecChUaEntries(brands: seq<Brand>): (r: seq<string>)
    ensures |r| == |brands|
    ensures forall i :: 0 <= i < |brands| ==> r[i] == SecChUaEntry(brands[i])
  {
    seq(|brands|, i requires 0 <= i < |brands| => SecChUaEntry(brands[i]))
  }

  /** `buildSecChUa(brands)`; None stands for an argument that is not an array. */
  function BuildSecChUa(brands: Option<seq<Brand>>): (r: string)
    ensures brands.None? || brands == Some([]) ==> r == NoBrandsToken
    ensures brands.Some? && brands.value != [] ==>
      StartsWith(r, SecChUaEntry(brands.value[0])) && EndsWith(r, ", " + GreaseEntry)
  {
    if brands.None? || brands.value == [] then NoBrandsToken
    else
      var parts := SecChUaEntries(brands.value) + [GreaseEntry];
      JoinFirst(parts, ", ");
      JoinLast(SecChUaEntries(brands.value), GreaseEntry, ", ");
      Join(parts, ", ")
  }

  /** `brands.map(b => "brand";v="version or 0").join(', ')`: full versions, no greased entry. */
  function FullVersionEntry(b: Brand): string
  {
    "\"" + b.brand + "\";v=\"" + (if b.version == [] then "0" else b.version) + "\""
  }

  function FullVersionEntries(brands: seq<Brand>): (r: seq<string>)
    ensures |r| == |brands|
    ensures forall i :: 0 <= i < |brands| ==> r[i] == FullVersionEntry(brands[i])
  {
    seq(|brands|, i requires 0 <= i < |brands| => FullVersionEntry(brands[i]))
  }

  function FullVersionList(brands: seq<Brand>): string
  {
    Join(FullVersionEntries(brands), ", ")
  }

  lemma {:induction false} JoinFirst(parts: seq<string>, sep: string)
    requires |parts| >= 1
    ensures StartsWith(Join(parts, sep), parts[0])
  {
  }

  lemma {:induction false} JoinLast(parts: seq<string>, last: string, sep: string)
    requires |parts| >= 1
    ensures Join(parts + [last], sep) == Join(parts, sep) + sep + last
    ensures EndsWith(Join(parts + [last], sep), sep + last)
    decreases |parts|
  {
    if |parts| > 1 {
      JoinLast(parts[1..], last, sep);
      assert (parts + [last])[1..] == parts[1..] + [last];
    }
    assert Join(parts + [last], sep) == Join(parts, sep) + (sep + last);
  }

  /** No brand name or version holds `c`. */
  predicate BrandsAvoid(brands: seq<Brand>, c: char)
  {
    forall i :: 0 <= i < |brands| ==> c !in brands[i].brand && c !in brands[i].version
  }

  /**
    `sec-ch-ua` read back: split on commas it has one entry per brand, in
    order, with the version cut to its major part, and the greased entry last.
   */
  lemma SecChUaEntriesInOrder(brands: seq<Brand>)
    requires brands != [] && BrandsAvoid(brands, ',')
    ensures var parts := SecChUaEntries(brands) + [GreaseEntry];
      Split(BuildSecChUa(Some(brands)), ',') == [parts[0]] + Padded(" ", parts[1..])
  {
    var parts := SecChUaEntries(brands) + [GreaseEntry];
    GreaseAvoidsComma();
    forall i | 0 <= i < |parts| ensures ',' !in parts[i] {
      if i < |brands| {
        SecChUaEntryAvoidsComma(brands[i]);
      } else {
        assert parts[i] == GreaseEntry;
      }
    }
    assert BuildSecChUa(Some(brands)) == Join(parts, ", ");
    assert [','] + " " == ", ";
    SplitJoin(parts, ',', " ");
  }

  lemma GreaseAvoidsComma()
    ensures ',' !in GreaseEntry
  {
  }

  lemma SecChUaEntryAvoidsComma(b: Brand)
    requires ',' !in b.brand && ',' !in b.version
    ensures ',' !in SecChUaEntry(b)
  {
    var v := b.version;
    var m := MajorVersion(v);
    if v != [] && v[0] != '.' {
      assert m == v[..|m|];
      assert forall c :: c in m ==> c in v;
    }
  }

  /** The full-version list read back: one entry per brand, in order, and nothing else. */
  lemma FullVersionListInOrder(brands: seq<Brand>)
    requires brands != [] && BrandsAvoid(brands, ',')
    ensures var parts := FullVersionEntries(brands);
      Split(FullVersionList(brands), ',') == [parts[0]] + Padded(" ", parts[1..])
  {
    var parts := FullVersionEntries(brands);
    forall i | 0 <= i < |parts| ensures ',' !in parts[i] {
      assert parts[i] == "\"" + brands[i].brand + "\";v=\"" + (if brands[i].version == [] then "0" else brands[i].version) + "\"";
    }
    assert [','] + " " == ", ";
    SplitJoin(parts, ',', " ");
  }

  // ------------------------------------------------------ client-hint headers

  function MobileHint(p: Preset): string
  {
    if p.mobile == "1" then "?1" else "?0"
  }

  function PlatformHint(p: Preset): string
  {
    "\"" + p.platform + "\""
  }

  /** The nine names the script assigns for every preset. */
  const IdentityNames: set<string> := {
    "User-Agent", "user-agent", "sec-ch-ua", "sec-ch-ua-mobile", "sec-ch-ua-platform",
    "sec-ch-ua-full-version-list", "Sec-CH-UA", "Sec-CH-UA-Mobile", "Sec-CH-UA-Platform"
  }

  /** The five values a preset dictates for the identity headers. */
  datatype Hints = Hints(ua: string, secChUa: string, mobile: string, platform: string, fullVersionList: string)

  function HintsFor(p: Preset): Hints
  {
    Hints(p.ua, BuildSecChUa(Some(p.brands)), MobileHint(p), PlatformHint(p), FullVersionList(p.brands))
  }

  /** Lines 85-86: both casings of the User-Agent. */
  function UserAgentAssignments(v: Hints): seq<Header>
  {
    [("User-Agent", Str(v.ua)), ("user-agent", Str(v.ua))]
  }

  /** Lines 91-94: the four lower-case client hints. */
  function LowerHintAssignments(v: Hints): seq<Header>
  {
    [ ("sec-ch-ua", Str(v.secChUa)), ("sec-ch-ua-mobile", Str(v.mobile)),
      ("sec-ch-ua-platform", Str(v.platform)), ("sec-ch-ua-full-version-list", Str(v.fullVersionList)) ]
  }

  /** Lines 97-99: the capitalised hints, copied from the lower-case ones just written. */
  function MirrorAssignments(v: Hints): seq<Header>
  {
    [("Sec-CH-UA", Str(v.secChUa)), ("Sec-CH-UA-Mobile", Str(v.mobile)), ("Sec-CH-UA-Platform", Str(v.platform))]
  }

  /** The User-Agent and client-hint assignments, in the script's order. */
  function HintAssignments(v: Hints): seq<Header>
  {
    UserAgentAssignments(v) + LowerHintAssignments(v) + MirrorAssignments(v)
  }

  function ApplyHints(h: Headers, v: Hints): Headers
  {
    PutAll(h, HintAssignments(v))
  }

  function ApplyClientHints(h: Headers, p: Preset): Headers
  {
    ApplyHints(h, HintsFor(p))
  }

  /** The nine names are assigned once each. */
  lemma HintAssignmentsUnique(v: Hints)
    ensures UniqueNames(HintAssignments(v))
    ensures forall i :: 0 <= i < |HintAssignments(v)| ==> HintAssignments(v)[i].0 in IdentityNames
  {
    assert HintAssignments(v) == [
      ("User-Agent", Str(v.ua)), ("user-agent", Str(v.ua)),
      ("sec-ch-ua", Str(v.secChUa)), ("sec-ch-ua-mobile", Str(v.mobile)),
      ("sec-ch-ua-platform", Str(v.platform)), ("sec-ch-ua-full-version-list", Str(v.fullVersionList)),
      ("Sec-CH-UA", Str(v.secChUa)), ("Sec-CH-UA-Mobile", Str(v.mobile)), ("Sec-CH-UA-Platform", Str(v.platform)) ];
  }

  /** The lower-case hints read back as written, which is what the mirrors copy. */
  lemma LowerHintsWritten(h: Headers, v: Hints)
    ensures Get(PutAll(h, LowerHintAssignments(v)), "sec-ch-ua") == Some(Str(v.secChUa))
    ensures Get(PutAll(h, LowerHintAssignments(v)), "sec-ch-ua-mobile") == Some(Str(v.mobile))
    ensures Get(PutAll(h, LowerHintAssignments(v)), "sec-ch-ua-platform") == Some(Str(v.platform))
  {
    var a := LowerHintAssignments(v);
    GetPutAll(h, a, "sec-ch-ua");
    GetPutAll(h, a, "sec-ch-ua-mobile");
    GetPutAll(h, a, "sec-ch-ua-platform");
    LastAssignedAt(a, 0);
    LastAssignedAt(a, 1);
    LastAssignedAt(a, 2);
  }

  /** None of the nine names is a cookie name: lower-casing keeps their length, which is not six. */
  lemma IdentityNotCookie(n: string)
    requires n in IdentityNames
    ensures !IsCookieName(n)
  {
    assert |Lower(n)| == |n| != |"cookie"|;
  }

  /**
    After the assignments both User-Agent casings hold the preset's UA, the
    client hints hold what the preset dictates, and the capitalised hints
    mirror the lower-case ones.
   */
  lemma ClientHintsLookup(h: Headers, p: Preset)
    ensures var r := ApplyClientHints(h, p);
      && Get(r, "User-Agent") == Get(r, "user-agent") == Some(Str(p.ua))
      && Get(r, "sec-ch-ua") == Some(Str(BuildSecChUa(Some(p.brands))))
      && Get(r, "sec-ch-ua-mobile") == Some(Str(MobileHint(p)))
      && Get(r, "sec-ch-ua-platform") == Some(Str(PlatformHint(p)))
      && Get(r, "sec-ch-ua-full-version-list") == Some(Str(FullVersionList(p.brands)))
      && Get(r, "Sec-CH-UA") == Get(r, "sec-ch-ua")
      && Get(r, "Sec-CH-UA-Mobile") == Get(r, "sec-ch-ua-mobile")
      && Get(r, "Sec-CH-UA-Platform") == Get(r, "sec-ch-ua-platform")
  {
    HintsWritten(h, HintsFor(p));
  }

  /** The nine names, each read back as the identity values dictate. */
  lemma HintsWritten(h: Headers, v: Hints)
    ensures Get(ApplyHints(h, v), "User-Agent") == Some(Str(v.ua))
    ensures Get(ApplyHints(h, v), "user-agent") == Some(Str(v.ua))
    ensures Get(ApplyHints(h, v), "sec-ch-ua") == Some(Str(v.secChUa))
    ensures Get(ApplyHints(h, v), "sec-ch-ua-mobile") == Some(Str(v.mobile))
    ensures Get(ApplyHints(h, v), "sec-ch-ua-platform") == Some(Str(v.platform))
    ensures Get(ApplyHints(h, v), "sec-ch-ua-full-version-list") == Some(Str(v.fullVersionList))
    ensures Get(ApplyHints(h, v), "Sec-CH-UA") == Some(Str(v.secChUa))
    ensures Get(ApplyHints(h, v), "Sec-CH-UA-Mobile") == Some(Str(v.mobile))
    ensures Get(ApplyHints(h, v), "Sec-CH-UA-Platform") == Some(Str(v.platform))
  {
    var a := HintAssignments(v);
    HintAssignmentsUnique(v);
    forall i | 0 <= i < |a| ensures Get(ApplyHints(h, v), a[i].0) == Some(a[i].1) {
      GetPutAll(h, a, a[i].0);
      LastAssignedAt(a, i);
    }
    assert a[0].0 == "User-Agent" && a[1].0 == "user-agent" && a[2].0 == "sec-ch-ua";
    assert a[3].0 == "sec-ch-ua-mobile" && a[4].0 == "sec-ch-ua-platform" && a[5].0 == "sec-ch-ua-full-version-list";
    assert a[6].0 == "Sec-CH-UA" && a[7].0 == "Sec-CH-UA-Mobile" && a[8].0 == "Sec-CH-UA-Platform";
  }

  /** What the identity assignments give a name; None off the nine names. */
  function IdentityValue(v: Hints, n: string): Option<HeaderValue>
  {
    if n == "User-Agent" || n == "user-agent" then Some(Str(v.ua))
    else if n == "sec-ch-ua" || n == "Sec-CH-UA" then Some(Str(v.secChUa))
    else if n == "sec-ch-ua-mobile" || n == "Sec-CH-UA-Mobile" then Some(Str(v.mobile))
    else if n == "sec-ch-ua-platform" || n == "Sec-CH-UA-Platform" then Some(Str(v.platform))
    else if n == "sec-ch-ua-full-version-list" then Some(Str(v.fullVersionList))
    else None
  }

  /**
    The identity assignments name by name: each of the nine names reads as
    its preset value, every other name as before.
   */
  lemma HintsGet(h: Headers, v: Hints, n: string)
    ensures Get(ApplyHints(h, v), n) == if n in IdentityNames then IdentityValue(v, n) else Get(h, n)
  {
    var a := HintAssignments(v);
    GetPutAll(h, a, n);
    HintAssignmentsUnique(v);
    LastAssignedAbsent(a, n);
    if n in IdentityNames {
      var i: nat :=
        if n == "User-Agent" then 0 else if n == "user-agent" then 1
        else if n == "sec-ch-ua" then 2 else if n == "sec-ch-ua-mobile" then 3
        else if n == "sec-ch-ua-platform" then 4 else if n == "sec-ch-ua-full-version-list" then 5
        else if n == "Sec-CH-UA" then 6 else if n == "Sec-CH-UA-Mobile" then 7 else 8;
      LastAssignedAt(a, i);
    }
  }

  // -------------------------------------------------------- preset resolution

  /** The active key, and the value to write to the persistent store, if any. */
  datatype Resolution = Resolution(key: string, write: Option<string>)

  /**
    The key precedence: a non-empty script argument, then a valid persisted
    value, then "mac". `argument` is `$argument.preset` (None when absent);
    `stored` is what the store returns for `StoreKey` (None when there is no
    store or no value).
   */
  function ResolvePreset(argument: Option<string>, stored: Option<string>): (r: Resolution)
    ensures argument.Some? && argument.value != [] ==> r.key == argument.value
    ensures r.write.Some? <==> argument.Some? && argument.value != [] && argument.value in Presets
    ensures r.write.Some? ==> r.write.value == r.key
    ensures (argument.None? || argument.value == []) ==>
      r.key == (if stored.Some? && stored.value in Presets then stored.value else DefaultPreset)
  {
    if argument.Some? && argument.value != [] then
      Resolution(argument.value, if argument.value in Presets then Some(argument.value) else None)
    else if stored.Some? && stored.value != [] && stored.value in Presets then
      Resolution(stored.value, None)
    else
      Resolution(DefaultPreset, None)
  }

  /** The store is consulted only when there is no argument: with one, it makes no difference. */
  lemma ArgumentIgnoresStore(argument: string, stored1: Option<string>, stored2: Option<string>)
    requires argument != []
    ensures ResolvePreset(Some(argument), stored1) == ResolvePreset(Some(argument), stored2)
  {
  }

  /** Without an explicit argument the active key is always a key of the table. */
  lemma ResolvedKeyValidWithoutArgument(argument: Option<string>, stored: Option<string>)
    requires argument.None? || argument.value == []
    ensures ResolvePreset(argument, stored).key in Presets
    ensures ResolvePreset(argument, stored).write.None?
  {
  }
}
