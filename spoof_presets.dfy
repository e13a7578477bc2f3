/**
  The page-spoofing userscript's decision logic (redbook/ua_presets.user.js):
  its own preset table, the user-agent classifier behind the optional
  automatic choice, the preset fallback and the PC / mobile split, the
  high-entropy client-hint lookup and the "is this a mobile media query"
  test used by the PC `matchMedia` override.
 */
module SpoofPresets {
  import opened Wrappers
  import opened Text
  import opened Brands

  /** `uaData.highEntropy`: three strings and a brand list. */
  datatype HighEntropy = HighEntropy(
    architecture: string, model: string, platformVersion: string, fullVersionList: seq<Brand>)

  /** `uaData`, the object the script exposes as `navigator.userAgentData`. */
  datatype AgentData = AgentData(brands: seq<Brand>, mobile: bool, platform: string, highEntropy: HighEntropy)

  datatype SpoofPreset = SpoofPreset(
    ua: string, platform: string, appVersion: string, vendor: string, uaData: AgentData)

  /** The ipad entry's user agent, named for the classifier example below. */
  const IpadAgent: string := "Mozilla/5.0 (iPad" + "; CPU OS 17_0 like Mac OS X) AppleWebKit/605.1.15 (KHTML, like Gecko) Version/17.0 Mobile/15E148 Safari/605.1.15"

  const UaPresets: map<string, SpoofPreset> := map[
    "ios" := SpoofPreset(
      "Mozilla/5.0 (iPhone; CPU iPhone OS 17_0 like Mac OS X) AppleWebKit/605.1.15 (KHTML, like Gecko) Version/17.0 Mobile/15E148 Safari/605.1.15",
      "iPhone", "5.0 (iPhone; CPU iPhone OS 17_0 like Mac OS X)", "Apple Computer, Inc.",
      AgentData([Brand("Safari", "17")], true, "iPhone",
        HighEntropy("arm64", "iPhone14,5", "17.0", [Brand("Safari", "17.0")]))),
    "mac" := SpoofPreset(
      "Mozilla/5.0 (Macintosh; Intel Mac OS X 10_15_7) AppleWebKit/537.36 (KHTML, like Gecko) Chrome/141.0.0.0 Safari/537.36",
      "MacIntel",
      "5.0 (Macintosh; Intel Mac OS X 10_15_7) AppleWebKit/537.36 (KHTML, like Gecko) Chrome/141.0.0.0 Safari/537.36",
      "Google Inc.",
      AgentData([Brand("Google Chrome", "141"), Brand("Not?A_Brand", "8"), Brand("Chromium", "141")], false, "macOS",
        HighEntropy("x86", "", "10.15.7", [Brand("Google Chrome", "141.0.0.0"), Brand("Chromium", "141.0.0.0")]))),
    "ipad" := SpoofPreset(
      IpadAgent,
      "iPad", "5.0 (iPad; CPU OS 17_0 like Mac OS X)", "Apple Computer, Inc.",
      AgentData([Brand("Safari", "17")], true, "iPad",
        HighEntropy("arm64", "iPad13,6", "17.0", [Brand("Safari", "17.0")]))),
    "android" := SpoofPreset(
      "Mozilla/5.0 (Linux; Android 14; Pixel 8) AppleWebKit/537.36 (KHTML, like Gecko) Chrome/120.0.0.0 Mobile Safari/537.36",
      "Linux armv8l", "5.0 (Linux; Android 14)", "Google Inc.",
      AgentData([Brand("Chromium", "120"), Brand("Google Chrome", "120")], true, "Android",
        HighEntropy("arm64", "Pixel 8", "14", [Brand("Chromium", "120.0.0.0")]))),
    "windows" := SpoofPreset(
      "Mozilla/5.0 (Windows NT 10.0; Win64; x64) AppleWebKit/537.36 (KHTML, like Gecko) Chrome/120.0.0.0 Safari/537.36",
      "Win32", "5.0 (Windows)", "Google Inc.",
      AgentData([Brand("Chromium", "120"), Brand("Google Chrome", "120")], false, "Windows",
        HighEntropy("x86", "", "10.0", [Brand("Chromium", "120.0.0.0")]))),
    "linux" := SpoofPreset(
      "Mozilla/5.0 (X11; Linux x86_64) AppleWebKit/537.36 (KHTML, like Gecko) Chrome/120.0.0.0 Safari/537.36",
      "Linux x86_64", "5.0 (X11; Linux x86_64)", "Google Inc.",
      AgentData([Brand("Chromium", "120"), Brand("Google Chrome", "120")], false, "Linux",
        HighEntropy("x86", "", "", [Brand("Chromium", "120.0.0.0")])))
  ]

  // ------------------------------------------------------------ selection

  /** The shipped configuration: automatic choice off, target `mac`. */
  const AutoSelect: bool := false
  const InitialTarget: string := "mac"

  /** The user-agent tokens that mark an Apple handheld. */
  predicate AppleHandheld(u: string)
  {
    Contains(u, "iphone") || Contains(u, "ipad") || Contains(u, "ipod") || Contains(u, "ios")
  }

  /** The first classifier rule that fires on the lower-cased user agent, if any. */
  function Classified(u: string): Option<string>
  {
    if AppleHandheld(u) then Some(if Contains(u, "ipad") then "ipad" else "ios")
    else if Contains(u, "macintosh") || Contains(u, "mac os x") then Some("mac")
    else if Contains(u, "android") then Some("android")
    else if Contains(u, "windows") then Some("windows")
    else if Contains(u, "linux") then Some("linux")
    else None
  }

  /**
    `autoPickPreset`: classify the page's own user agent (`navigator.userAgent
    || ""`, given here as a string), falling back to the current target.
   */
  function AutoPick(userAgent: string, selectTarget: string): (r: string)
    ensures r in UaPresets || r == selectTarget
    ensures Contains(Lower(userAgent), "ipad") ==> r == "ipad"
    ensures AppleHandheld(Lower(userAgent)) && !Contains(Lower(userAgent), "ipad") ==> r == "ios"
    ensures r != selectTarget && r !in {"ios", "ipad"} ==> !AppleHandheld(Lower(userAgent))
    ensures var u := Lower(userAgent);
      !AppleHandheld(u) ==>
        var mac := Contains(u, "macintosh") || Contains(u, "mac os x");
        && (mac ==> r == "mac")
        && (!mac && Contains(u, "android") ==> r == "android")
        && (!mac && !Contains(u, "android") && Contains(u, "windows") ==> r == "windows")
        && (!mac && !Contains(u, "android") && !Contains(u, "windows") && Contains(u, "linux") ==> r == "linux")
        && (!mac && !Contains(u, "android") && !Contains(u, "windows") && !Contains(u, "linux") ==> r == selectTarget)
  {
    match Classified(Lower(userAgent))
    case Some(key) => key
    case None => selectTarget
  }

  /** The `SELECT_TARGET` variable after the optional automatic choice. */
  function SelectTarget(autoSelect: bool, userAgent: string): (r: string)
    ensures !autoSelect ==> r == InitialTarget
    ensures r in UaPresets
  {
    if autoSelect then AutoPick(userAgent, InitialTarget) else InitialTarget
  }

  /** `UA_PRESETS[SELECT_TARGET] || UA_PRESETS.mac`. */
  function PresetOf(target: string): (p: SpoofPreset)
    ensures target in UaPresets ==> p == UaPresets[target]
    ensures target !in UaPresets ==> p == UaPresets["mac"]
  {
    if target in UaPresets then UaPresets[target] else UaPresets["mac"]
  }

  const MobilePlatforms: seq<string> := ["ios", "ipad", "android"]
  const PcPlatforms: seq<string> := ["mac", "windows", "linux"]

  /** Which override group the run applies: PC is checked first, then mobile. */
  datatype Category = Pc | Mobile | Neither

  function CategoryOf(target: string): (c: Category)
    ensures c == Pc <==> target in PcPlatforms
    ensures c == Mobile <==> target in MobilePlatforms
  {
    if target in PcPlatforms then Pc else if target in MobilePlatforms then Mobile else Neither
  }

  /** The two lists split the table's keys: every key is in exactly one of them. */
  lemma CategoriesPartitionTable(target: string)
    ensures target in UaPresets <==> CategoryOf(target) != Neither
    ensures !(target in PcPlatforms && target in MobilePlatforms)
  {
  }

  /** `uaData.mobile` is set exactly on the entries the run treats as mobile. */
  lemma MobileFlagMatchesCategory(target: string)
    requires target in UaPresets
    ensures UaPresets[target].uaData.mobile <==> CategoryOf(target) == Mobile
  {
  }

  /**
    An unknown target still gets the mac entry's identity, but falls in
    neither override group.
   */
  lemma UnknownTargetFallsBack(target: string)
    requires target !in UaPresets
    ensures PresetOf(target) == UaPresets["mac"]
    ensures CategoryOf(target) == Neither
  {
  }

  /** With the shipped configuration the target is `mac`, whatever the page's user agent. */
  lemma ShippedTargetIsMac(userAgent: string)
    ensures SelectTarget(AutoSelect, userAgent) == "mac"
    ensures CategoryOf(SelectTarget(AutoSelect, userAgent)) == Pc
  {
  }

  /** The ipad entry's own user agent is classified as `ipad`. */
  lemma IpadAgentPicksIpad(ua: string, selectTarget: string)
    requires ua == IpadAgent
    ensures UaPresets["ipad"].ua == ua
    ensures AutoPick(ua, selectTarget) == "ipad"
  {
    var u := Lower(ua);
    assert u[13] == LowerChar('i') && u[14] == LowerChar('P') && u[15] == LowerChar('a') && u[16] == LowerChar('d');
    assert u[13..17] == "ipad";
    ContainsAt(u, "ipad", 13);
  }

  /**
    Every Apple handheld agent also says "like Mac OS X"; the handheld rule
    comes first, so such an agent is never classified as `mac`.
   */
  lemma HandheldBeforeMac(userAgent: string, selectTarget: string)
    requires Contains(Lower(userAgent), "iphone") && Contains(Lower(userAgent), "mac os x")
    requires selectTarget != "mac"
    ensures AutoPick(userAgent, selectTarget) != "mac"
  {
  }

  // ---------------------------------------------------- high-entropy values

  /** A high-entropy value: a string, or the brand list under `fullVersionList`. */
  datatype EntropyValue = Text(s: string) | BrandList(list: seq<Brand>)

  const EntropyKeys: set<string> := {"architecture", "model", "platformVersion", "fullVersionList"}

  /** `highEntropy[k]` for the object's own keys; `None` for every other key. */
  function EntropyLookup(he: HighEntropy, key: string): (r: Option<EntropyValue>)
    ensures r.Some? <==> key in EntropyKeys
  {
    if key == "architecture" then Some(Text(he.architecture))
    else if key == "model" then Some(Text(he.model))
    else if key == "platformVersion" then Some(Text(he.platformVersion))
    else if key == "fullVersionList" then Some(BrandList(he.fullVersionList))
    else None
  }

  /** The top-level closure's value for one key: the configured value if `k in highEntropy`, else `""`. */
  function EntropyValueFor(he: HighEntropy, key: string): EntropyValue
  {
    match EntropyLookup(he, key)
    case Some(v) => v
    case None => Text("")
  }

  /** JavaScript truthiness of a high-entropy value (every array is truthy). */
  predicate Truthy(v: EntropyValue)
  {
    v.BrandList? || v.s != ""
  }

  /** The iframe closure's value for one key: `highEntropy[k] || ""`. */
  function IframeEntropyValueFor(he: HighEntropy, key: string): EntropyValue
  {
    match EntropyLookup(he, key)
    case Some(v) => if Truthy(v) then v else Text("")
    case None => Text("")
  }

  /** The two closures answer every key alike, though one tests membership and the other truthiness. */
  lemma IframeEntropyAgrees(he: HighEntropy, key: string)
    ensures IframeEntropyValueFor(he, key) == EntropyValueFor(he, key)
    ensures key !in EntropyKeys ==> EntropyValueFor(he, key) == Text("")
  {
  }

  /** The object `getHighEntropyValues(keys)` resolves to, built key by key in request order. */
  function HighEntropyValues(he: HighEntropy, keys: seq<string>): map<string, EntropyValue>
    decreases |keys|
  {
    if keys == [] then map[]
    else
      var last := keys[|keys| - 1];
      HighEntropyValues(he, keys[..|keys| - 1])[last := EntropyValueFor(he, last)]
  }

  /** The result holds exactly the requested keys, each with its configured value or `""`. */
  lemma {:induction false} HighEntropyValuesShape(he: HighEntropy, keys: seq<string>)
    ensures HighEntropyValues(he, keys).Keys == set k | k in keys
    ensures forall k :: k in keys ==> HighEntropyValues(he, keys)[k] == EntropyValueFor(he, k)
    decreases |keys|
  {
    if keys != [] {
      var front := keys[..|keys| - 1];
      HighEntropyValuesShape(he, front);
      assert keys == front + [keys[|keys| - 1]];
      assert (set k | k in keys) == (set k | k in front) + {keys[|keys| - 1]};
    }
  }

  /** The `forEach` loop of `getHighEntropyValues`; the promise wrapper is not modelled. */
  method GetHighEntropyValues(he: HighEntropy, keys: seq<string>) returns (res: map<string, EntropyValue>)
    ensures res.Keys == set k | k in keys
    ensures forall k :: k in keys ==> res[k] == EntropyValueFor(he, k)
    ensures res == HighEntropyValues(he, keys)
  {
    res := map[];
    var i := 0;
    while i < |keys|
      invariant 0 <= i <= |keys|
      invariant res == HighEntropyValues(he, keys[..i])
    {
      var k := keys[i];
      if k in EntropyKeys {
        res := res[k := EntropyLookup(he, k).value];
      } else {
        res := res[k := Text("")];
      }
      assert keys[..i + 1][..i] == keys[..i];
      i := i + 1;
    }
    assert keys[..i] == keys;
    HighEntropyValuesShape(he, keys);
  }

  // ------------------------------------------------------- media queries

  /** The mobile-looking media queries the PC override answers with "no match". */
  predicate IsMobileQuery(query: string)
  {
    var q := Lower(query);
    (Contains(q, "max-width") && (Contains(q, "768") || Contains(q, "767") || Contains(q, "480")))
    || Contains(q, "max-device-width")
    || (Contains(q, "orientation") && Contains(q, "portrait"))
    || (Contains(q, "pointer") && Contains(q, "coarse"))
    || (Contains(q, "hover") && Contains(q, "none"))
  }

  /** The argument of `matchMedia`: a string, or any other JavaScript value. */
  datatype Query = QueryString(s: string) | NonString

  /** A `MediaQueryList`, reduced to what a page reads from it. */
  datatype MediaQueryList = MediaQueryList(matches: bool, media: string)

  /** The replacement `matchMedia`; `original` is the page's own matcher, left opaque. */
  function MatchMediaPc(query: Query, original: Query -> MediaQueryList): MediaQueryList
  {
    if query.QueryString? && query.s != [] && IsMobileQuery(query.s) then MediaQueryList(false, query.s)
    else original(query)
  }

  /** The test is case-insensitive: it reads the query lower-cased. */
  lemma MobileQueryIgnoresCase(query: string)
    ensures IsMobileQuery(Lower(query)) == IsMobileQuery(query)
  {
    LowerIdempotent(query);
  }

  /**
    The test is textual, so a mobile-looking part makes the whole query
    mobile: a query list such as "(min-width: 1024px), (max-width: 768px)"
    is answered "no match" like its second half.
   */
  lemma MobileQueryWithin(query: string, before: string, after: string)
    requires IsMobileQuery(query)
    ensures IsMobileQuery(before + query + after)
  {
    var q := Lower(query);
    LowerAppend(before + query, after);
    LowerAppend(before, query);
    var whole := Lower(before) + q + Lower(after);
    assert Lower(before + query + after) == whole;
    forall sub | Contains(q, sub)
      ensures Contains(whole, sub)
    {
      ContainsWithin(q, sub, Lower(before), Lower(after));
    }
  }

  /**
    Every `max-width` breakpoint that starts with 768, 767 or 480 is mobile,
    whatever follows: "(max-width: 7680px)" is answered like a phone width.
   */
  lemma MaxWidthBreakpointIsMobile(mark: string, rest: string)
    requires mark == "768" || mark == "767" || mark == "480"
    ensures IsMobileQuery("(max-width: " + mark + rest)
  {
    var opening := "(max-width: ";
    var head := opening + mark;
    LowerOfLowercase(head);
    LowerAppend(head, rest);
    var q := head + Lower(rest);
    assert Lower(head + rest) == q;
    assert |opening| == 12 && opening[1..10] == "max-width";
    assert q == opening + (mark + Lower(rest));
    assert q[1..10] == opening[1..10];
    ContainsAt(q, "max-width", 1);
    assert q[12..15] == (mark + Lower(rest))[..3] == mark;
    ContainsAt(q, mark, 12);
  }

  /**
    A query that names none of `max-`, orientation, pointer or hover (every
    `min-width` breakpoint, for one) reaches the page's own `matchMedia`.
   */
  lemma DesktopQueryPassesThrough(query: Query, original: Query -> MediaQueryList)
    requires query.QueryString?
    requires !Contains(Lower(query.s), "max-") && !Contains(Lower(query.s), "orientation")
    requires !Contains(Lower(query.s), "pointer") && !Contains(Lower(query.s), "hover")
    ensures MatchMediaPc(query, original) == original(query)
  {
    var q := Lower(query.s);
    if Contains(q, "max-width") {
      assert "max-width"[..4] == "max-";
      ContainsPrefix(q, "max-width", 4);
    }
    if Contains(q, "max-device-width") {
      assert "max-device-width"[..4] == "max-";
      ContainsPrefix(q, "max-device-width", 4);
    }
  }

  lemma EmptyQueryNotMobile()
    ensures !IsMobileQuery("")
  {
    assert Lower("") == "";
  }

  /** A mobile query never matches and echoes the query; every other argument goes to the original. */
  lemma MatchMediaPcAnswers(query: Query, original: Query -> MediaQueryList)
    ensures query.QueryString? && IsMobileQuery(query.s) ==>
      !MatchMediaPc(query, original).matches && MatchMediaPc(query, original).media == query.s
    ensures !(query.QueryString? && IsMobileQuery(query.s)) ==>
      MatchMediaPc(query, original) == original(query)
  {
    EmptyQueryNotMobile();
  }
}
