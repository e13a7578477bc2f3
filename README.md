# Xiaohongshu user-agent presets, modelled in Dafny

This project models the two halves of the `redbook` user-agent spoofer.

**The Loon rewrite script** (`redbook/ua_presets.js`) runs on every outgoing request.
- It picks a device preset: the plugin argument first, then the persistent store, then the default.
- It overwrites `User-Agent` and the `sec-ch-ua*` client-hint headers with the preset's values.
- For the `mac` preset only, it does two more things:
  - it merges every cookie header into one `cookie` header in which `xsecappid` is forced to `xhs-pc-web`;
  - it normalises `sec-fetch-site`.

**The userscript** (`redbook/ua_presets.user.js`) runs in the page.
- It picks a target (fixed, or auto-picked from the real user agent).
- It redefines the identity properties of `navigator`, including a fake `userAgentData`.
- For a PC or mobile target, it redefines the screen, touch, media-query, hardware, connection and orientation properties.
- It repeats the identity part in every iframe created through `document.createElement`.
- It leaves a marker object on `window`.

The modules follow that split:

| module | file | what it holds |
|---|---|---|
| `Wrappers` | wrappers.dfy | `Option` |
| `Text` | text.dfy | ASCII lower-casing, JavaScript `trim`, `split`/`join`, `includes`, `startsWith` |
| `Headers` | headers.dfy | headers as an ordered list of named values. Assignment behaves like a JavaScript object: it replaces in place or appends. Also deletion of every cookie header. |
| `Brands`, `LoonPresets` | loon_presets.dfy | the Loon preset table, `buildSecChUa`, the full-version list, the client-hint assignments, preset resolution |
| `CookieMerge` | cookie_merge.dfy | the three loops of the mac branch (collect, process, delete) as methods proved against specification functions, and the merged-cookie algebra |
| `HeaderRewriter` | rewriter.dfy | the script entry `Rewrite`, the `sec-fetch-site` rule, lookups, idempotence, a worked cookie scenario |
| `SpoofPresets` | spoof_presets.dfy | the userscript preset table, `autoPickPreset`, the PC/mobile split, `getHighEntropyValues`, the mobile media-query test |
| `HostObjects` | host_objects.dfy | the page's host objects as property tables. `Object.defineProperty` and assignment can throw. A `try` block runs its statements up to the first throw. |
| `PageSpoof` | page_spoof.dfy | one specification function per override function, and what the whole run and the iframe hook leave behind |
| `PageScript` | page_script.dfy | the userscript as imperative code: `Realm` holds one window's mutable host objects, and `Page` has one method per override function plus the run and the iframe load handler |

## Model

A page or frame is *configurable* when every host object in it is extensible and every property it already has is configurable. Rows that say what a page reads afterwards hold for configurable pages; on other pages `defineProp` may leave a property as it was.

| member | source | states |
|---|---|---|
| `LoonPresets.PresetFor` | redbook/ua_presets.js:79 | A known key selects its own preset; any other key falls back to the default preset. |
| `LoonPresets.MajorVersion` | redbook/ua_presets.js:54 | The major version is never empty and holds no dot. An empty version, or one that starts with a dot, gives `"0"`. Otherwise it is the prefix of the version up to the first dot. |
| `LoonPresets.SecChUaEntries` | redbook/ua_presets.js:54 | There is one `"brand";v="major"` entry per brand, in brand order. |
| `LoonPresets.BuildSecChUa` | redbook/ua_presets.js:52-57 | A missing or empty brand list gives the fixed `"Not A;Brand";v="99"` token. Otherwise the result starts with the first brand's entry and ends with `, ` plus the GREASE entry. |
| `LoonPresets.FullVersionEntries` | redbook/ua_presets.js:94 | There is one `"brand";v="version"` entry per brand, in order. |
| `LoonPresets.SecChUaEntriesInOrder` | redbook/ua_presets.js:52-57 | If no brand or version holds a comma, splitting `sec-ch-ua` at commas gives back each brand's entry and then the GREASE entry. Each piece after the first has the one-space pad that `join(', ')` added. |
| `LoonPresets.FullVersionListInOrder` | redbook/ua_presets.js:94 | The full-version list splits back into exactly the per-brand entries, in order. |
| `LoonPresets.SecChUaEntryAvoidsComma` | redbook/ua_presets.js:54 | An entry built from comma-free fields holds no comma. |
| `LoonPresets.HintAssignmentsUnique` | redbook/ua_presets.js:85-99 | The identity block assigns each header name once, and only the identity names. |
| `LoonPresets.LowerHintsWritten` | redbook/ua_presets.js:91-93 | After the lower-case hint assignments, `sec-ch-ua`, `sec-ch-ua-mobile` and `sec-ch-ua-platform` hold the preset's values. |
| `LoonPresets.IdentityNotCookie` | redbook/ua_presets.js:85-99 | No identity header is a cookie header in any letter case. |
| `LoonPresets.ClientHintsLookup` | redbook/ua_presets.js:85-99 | After the identity block, both user-agent spellings hold the preset's UA. The hints hold `buildSecChUa(brands)`, `?1`/`?0` by the mobile flag, and the quoted platform. The upper-case mirrors equal their lower-case sources. |
| `LoonPresets.HintsWritten` | redbook/ua_presets.js:85-99 | Every identity header holds the value computed for it. |
| `LoonPresets.HintsGet` | redbook/ua_presets.js:85-99 | An identity name reads its new value; every other name reads what it read before. |
| `LoonPresets.ResolvePreset` | redbook/ua_presets.js:64-77 | A non-empty argument is used as the key even when unknown, and is written to the store exactly when it is a known key. Otherwise a known stored key is used, else the default. |
| `LoonPresets.ArgumentIgnoresStore` | redbook/ua_presets.js:66-71 | With a non-empty argument, the stored value has no influence. |
| `LoonPresets.ResolvedKeyValidWithoutArgument` | redbook/ua_presets.js:72-76 | Without an argument, the key is always a known preset and nothing is written. |
| `Headers.Put` | redbook/ua_presets.js:85-86 | An assignment makes the name read the new value and leaves every other name unchanged. |
| `Headers.PutPlacement` | redbook/ua_presets.js:85-86 | A new name is appended at the end. An existing name keeps its position, so the name order does not change. |
| `Headers.PutUnique` | redbook/ua_presets.js:85-86 | An assignment keeps header names unique. |
| `Headers.GetAbsent` | redbook/ua_presets.js:172 | A lookup is missing exactly when no header has that name. |
| `Headers.GetPutAll` | redbook/ua_presets.js:85-99 | After a run of assignments, a name reads its last assigned value, or its old value if it was never assigned. |
| `Headers.LastAssignedAt` | redbook/ua_presets.js:85-99 | With unique names in the run, each name's last assignment is its only one. |
| `Headers.LastAssignedAbsent` | redbook/ua_presets.js:85-99 | A name the run never assigns has no last assignment. |
| `Headers.PutAllAppend` | redbook/ua_presets.js:85-99 | Two runs of assignments in sequence equal one run of both lists. |
| `Headers.PutAllUnique` | redbook/ua_presets.js:85-99 | A run of assignments keeps header names unique. |
| `Headers.PutAllSameMapping` | redbook/ua_presets.js:85-99 | Assignments applied to two header lists that read alike give lists that read alike. |
| `Headers.WithoutCookies` | redbook/ua_presets.js:160-164 | After the deletion, every cookie spelling reads missing and every other name reads what it read before. |
| `Headers.WithoutCookiesShape` | redbook/ua_presets.js:160-164 | No remaining header has a cookie name, every remaining header is an entry of the original list, and unique names stay unique. |
| `CookieMerge.CollectCookies` | redbook/ua_presets.js:110-134 | The collection loop returns the trimmed, non-empty pieces of every cookie header, in header order. Array items without `;` are only trimmed; non-string items are skipped. |
| `CookieMerge.ProcessCookies` | redbook/ua_presets.js:137-154 | The processing loop rewrites every `xsecappid=` pair to `xsecappid=xhs-pc-web`, drops empty pairs, and appends one such pair when none was seen. |
| `CookieMerge.RemoveCookieHeaders` | redbook/ua_presets.js:160-164 | The deletion loop leaves exactly the non-cookie headers. |
| `CookieMerge.CollectedPairsAvoidSemicolon` | redbook/ua_presets.js:119-131 | No collected cookie contains `;`. |
| `CookieMerge.CookieSegmentsWellFormed` | redbook/ua_presets.js:130 | Splitting at `;`, trimming and dropping empties gives trimmed, non-empty, `;`-free pairs. |
| `CookieMerge.CookieSegmentsAtSeparator` | redbook/ua_presets.js:130 | Segmenting `a;b` gives the segments of `a` followed by those of `b`. |
| `CookieMerge.CookieSegmentsLeadingSpace` | redbook/ua_presets.js:130 | A leading space does not change the segments. |
| `CookieMerge.CookieSegmentsSingle` | redbook/ua_presets.js:124 | A string without `;` segments to its trimmed self, or to nothing when it trims to empty. |
| `CookieMerge.CookieSegmentsOfJoin` | redbook/ua_presets.js:157 | Joining well-formed pairs with `; ` and segmenting the result gives the pairs back. |
| `CookieMerge.RewritePairsPointwise` | redbook/ua_presets.js:138-149 | The rewrite keeps one output per segment. Each output is the fixed `xsecappid` pair if the segment starts with `xsecappid=`, and the segment itself otherwise. |
| `CookieMerge.RewriteKeepsAppIdCount` | redbook/ua_presets.js:142-145 | Rewriting keeps the number of `xsecappid` pairs. |
| `CookieMerge.ProcessedAppIdCount` | redbook/ua_presets.js:137-154 | Processing leaves exactly one `xsecappid` pair when there was none, and otherwise as many as there were. |
| `CookieMerge.ProcessedPairsShape` | redbook/ua_presets.js:137-154 | Every processed pair is well formed, and every pair starting with `xsecappid=` is exactly `xsecappid=xhs-pc-web`. |
| `CookieMerge.RewriteShape` | redbook/ua_presets.js:138-149 | The same two facts hold for the rewrite step alone. |
| `CookieMerge.ProcessFixedPoint` | redbook/ua_presets.js:138-149 | Well-formed pairs with only the fixed `xsecappid` value are left unchanged by the rewrite. |
| `CookieMerge.MergeCookiesLookup` | redbook/ua_presets.js:157-167 | After merging, `cookie` reads the merged string. Every other cookie spelling reads missing, and every other name is unchanged. |
| `CookieMerge.MergedCookieSegments` | redbook/ua_presets.js:137-157 | Segmenting the merged cookie gives exactly the processed pairs. |
| `CookieMerge.MergeIdempotent` | redbook/ua_presets.js:110-157 | Collecting and processing the merged cookie a second time gives the same pairs as the first run. |
| `CookieMerge.AsItems` | redbook/ua_presets.js:114-127 | The array form has one string item per part, in order. |
| `CookieMerge.ArrayFormAgrees` | redbook/ua_presets.js:114-131 | An HTTP/2 cookie array processes to the same pairs as the single string that joins its items with `; `. |
| `CookieMerge.ItemsSegments` | redbook/ua_presets.js:114-131 | Segmenting array items one by one gives the segments of their `; `-join. |
| `CookieMerge.SegmentsDecide` | redbook/ua_presets.js:138-154 | Two cookie lists with the same segments process to the same pairs. |
| `CookieMerge.AppIdCountBySegments` | redbook/ua_presets.js:138-145 | Counting `xsecappid` pairs over cookies equals counting them over their segments. |
| `CookieMerge.CollectedPairsPut` | redbook/ua_presets.js:110-111 | Assigning a non-cookie header does not change the collected cookies. |
| `CookieMerge.CollectedPairsPutAll` | redbook/ua_presets.js:110-111 | The same holds for a run of non-cookie assignments. |
| `CookieMerge.NoCookieHeadersNoPairs` | redbook/ua_presets.js:110-111 | Headers with no cookie name collect nothing. |
| `CookieMerge.CollectedPairsOfMerged` | redbook/ua_presets.js:110-167 | On merged headers, collection sees only the one merged `cookie` header. |
| `HeaderRewriter.Or` | redbook/ua_presets.js:172 | JavaScript `a \|\| b`: a truthy present value wins, and otherwise the fallback. |
| `HeaderRewriter.Rewrite` | redbook/ua_presets.js:60-212 | Without a request the result is `$done({})` and nothing is stored. With a request, the store write follows preset resolution, and the result carries the rewritten headers and no body. |
| `HeaderRewriter.SetIdentity` | redbook/ua_presets.js:85-99 | The identity block as statements equals the client-hint assignment function. |
| `HeaderRewriter.SetUserAgent` | redbook/ua_presets.js:85-86 | The two user-agent assignments, as statements. |
| `HeaderRewriter.SetClientHints` | redbook/ua_presets.js:90-94 | The four lower-case hint assignments, as statements. |
| `HeaderRewriter.MirrorClientHints` | redbook/ua_presets.js:97-99 | The mirrors copy the values just written to the lower-case names. |
| `HeaderRewriter.MergeCookieHeaders` | redbook/ua_presets.js:106-167 | The whole cookie block, with its three loops, equals the merge function. |
| `HeaderRewriter.AdjustFetchSite` | redbook/ua_presets.js:172-183 | The `sec-fetch-site` block as statements equals the fetch-site rule. |
| `HeaderRewriter.HintsKeepPairs` | redbook/ua_presets.js:85-110 | The identity block does not change the collected cookies. |
| `HeaderRewriter.FetchSiteRuleGet` | redbook/ua_presets.js:172-183 | The rule changes only the two `sec-fetch-site` spellings. |
| `HeaderRewriter.FetchSiteRuleKeepsPairs` | redbook/ua_presets.js:172-183 | The rule does not change the cookies. |
| `HeaderRewriter.FetchSiteValueAgree` | redbook/ua_presets.js:172-183 | The new site value depends only on the four fetch headers. |
| `HeaderRewriter.FetchSiteStable` | redbook/ua_presets.js:172-183 | When the destinations are unchanged and both site headers already hold the rule's values, the rule gives back the values they hold. |
| `HeaderRewriter.MergedKeepsFetchInputs` | redbook/ua_presets.js:85-167 | The identity and cookie blocks do not touch the fetch headers. |
| `HeaderRewriter.MergedKeeps` | redbook/ua_presets.js:85-167 | Any non-identity, non-cookie header survives both blocks unchanged. |
| `HeaderRewriter.MacLookup` | redbook/ua_presets.js:85-183 | In the mac branch every name reads its expected value. |
| `HeaderRewriter.RewriteWithLookup` | redbook/ua_presets.js:85-183 | For either branch, every name reads its expected value: identity values, the merged cookie, the fetch-site rule, or the original. |
| `HeaderRewriter.RewriteLookup` | redbook/ua_presets.js:79-183 | The same, from a preset key: the mac branch is taken exactly for the key `mac`. |
| `HeaderRewriter.UnknownKeyIdentityOnly` | redbook/ua_presets.js:79 | An unknown key applies the default preset's identity and changes nothing else. Cookies are not merged, because the key is not `mac`. |
| `HeaderRewriter.MacFetchSiteLookup` | redbook/ua_presets.js:172-183 | Under `mac`, both site spellings read the rule's value for the original headers. |
| `HeaderRewriter.DocumentNavigationIsNone` | redbook/ua_presets.js:172-175 | A `document` destination, in any case, sets both site spellings to `none`. |
| `HeaderRewriter.SubresourceFetchSite` | redbook/ua_presets.js:176-183 | For another string destination, a same-origin, same-site or missing site becomes `same-site`; any other site is kept. |
| `HeaderRewriter.NonStringDestinationKeepsSite` | redbook/ua_presets.js:172-184 | A non-string destination makes `toLowerCase` throw. The catch then leaves both site headers as they were. |
| `HeaderRewriter.MacSingleCookieHeader` | redbook/ua_presets.js:160-167 | Under `mac`, exactly one cookie header remains: `cookie`, holding the merged string. |
| `HeaderRewriter.RewriteIdempotent` | redbook/ua_presets.js:60-212 | Rewriting an already rewritten request gives headers that read the same under every name. |
| `HeaderRewriter.RewriteWithIdempotent` | redbook/ua_presets.js:85-183 | The same, for each branch and any hint values. |
| `HeaderRewriter.SecondRunLookup` | redbook/ua_presets.js:85-183 | On a second run every name reads what the first run left. |
| `HeaderRewriter.SecondMergeSameCookie` | redbook/ua_presets.js:106-157 | Merging a second time reproduces the first merged cookie. |
| `HeaderRewriter.RewriteKeepsNamesUnique` | redbook/ua_presets.js:82-183 | A request with unique header names keeps them unique. |
| `HeaderRewriter.CookieScenario` | redbook/ua_presets.js:106-167 | `a=1; xsecappid=old; b=2` becomes `a=1; xsecappid=xhs-pc-web; b=2` under `mac`. |
| `Text.LowerIdempotent` | redbook/ua_presets.js:111 | Lower-casing twice equals lower-casing once. |
| `Text.TrimFacts` | redbook/ua_presets.js:120 | The result of `trim` has no whitespace at either end and holds only characters of its input. |
| `Text.TrimIdempotent` | redbook/ua_presets.js:139 | A second `trim` changes nothing. |
| `Text.Split` | redbook/ua_presets.js:130 | `split` always gives at least one piece, even for the empty string. |
| `Text.SplitPieces` | redbook/ua_presets.js:130 | No piece of `split` contains the separator. |
| `Text.SplitWithoutSeparator` | redbook/ua_presets.js:130 | A string without the separator splits to itself alone. |
| `Text.SplitAtSeparator` | redbook/ua_presets.js:130 | Splitting `a`, separator, `b` gives the pieces of `a` followed by the pieces of `b`. |
| `Text.TrimLeadingSpace` | redbook/ua_presets.js:130 | A leading space does not change the result of `trim`. |
| `Text.SplitJoin` | redbook/ua_presets.js:56 | Joining separator-free pieces with the separator plus a pad, then splitting at the separator, gives the first piece and then each other piece with the pad in front. |
| `SpoofPresets.AutoPick` | redbook/ua_presets.user.js:135-150 | The rules are tried in order, on the lower-cased agent. Any Apple handheld token picks `ipad` when the agent mentions iPad, and `ios` otherwise. Failing that, the first of `macintosh`/`mac os x`, `android`, `windows` and `linux` decides. An agent with none of these keeps the current target. |
| `SpoofPresets.SelectTarget` | redbook/ua_presets.user.js:131-156 | Without auto-selection the target is `mac`. The target is always a table key. |
| `SpoofPresets.PresetOf` | redbook/ua_presets.user.js:158 | A known target selects its preset; any other falls back to `mac`. |
| `SpoofPresets.CategoryOf` | redbook/ua_presets.user.js:161-164 | The category is PC exactly for the PC list and mobile exactly for the mobile list. |
| `SpoofPresets.CategoriesPartitionTable` | redbook/ua_presets.user.js:16-164 | The two lists together are exactly the table's keys, and they do not overlap. |
| `SpoofPresets.MobileFlagMatchesCategory` | redbook/ua_presets.user.js:16-164 | A preset's `uaData.mobile` flag is set exactly for the mobile targets. |
| `SpoofPresets.UnknownTargetFallsBack` | redbook/ua_presets.user.js:158-164 | An unknown target uses the mac preset but gets neither group of overrides. |
| `SpoofPresets.ShippedTargetIsMac` | redbook/ua_presets.user.js:131-156 | As shipped, the target is `mac`, a PC platform, whatever the real agent. |
| `SpoofPresets.IpadAgentPicksIpad` | redbook/ua_presets.user.js:141-142 | The table's own iPad agent auto-picks `ipad`. |
| `SpoofPresets.HandheldBeforeMac` | redbook/ua_presets.user.js:141-144 | An iPhone agent that also says `Mac OS X` never picks `mac`, because the handheld test comes first. |
| `SpoofPresets.EntropyLookup` | redbook/ua_presets.user.js:196 | A high-entropy key is found exactly when the preset lists it. |
| `SpoofPresets.HighEntropyValuesShape` | redbook/ua_presets.user.js:193-203 | The result has exactly the requested keys. Each holds the preset's value, or `""` for an unknown key. |
| `SpoofPresets.GetHighEntropyValues` | redbook/ua_presets.user.js:193-203 | The `forEach` loop builds exactly that map. |
| `SpoofPresets.IframeEntropyAgrees` | redbook/ua_presets.user.js:433 | The iframe's `highEntropy[k] \|\| ""` agrees with the top window's `k in highEntropy` test for every key and every preset. An unknown key gives `""` in both. The only falsy value a listed key can hold is `""` (several presets have an empty `model`, and Linux has an empty `platformVersion`), and `"" \|\| ""` is `""` again. Brand lists are always truthy. |
| `SpoofPresets.MobileQueryIgnoresCase` | redbook/ua_presets.user.js:284-290 | The mobile-query test ignores ASCII letter case. |
| `SpoofPresets.MatchMediaPcAnswers` | redbook/ua_presets.user.js:281-307 | A mobile string query gets a fake non-matching list that echoes the query. Every other query is passed to the original `matchMedia`. |
| `SpoofPresets.MobileQueryWithin` | redbook/ua_presets.user.js:284-290 | The test is textual, so adding any text around a mobile query keeps it mobile. For example, a query list with one phone-width part is answered as mobile. |
| `SpoofPresets.MaxWidthBreakpointIsMobile` | redbook/ua_presets.user.js:286 | Every `(max-width: ` query whose number starts with 768, 767 or 480 is mobile, whatever follows. `(max-width: 7680px)` is mobile like `(max-width: 768px)`. |
| `SpoofPresets.DesktopQueryPassesThrough` | redbook/ua_presets.user.js:281-307 | A string query that names none of `max-`, `orientation`, `pointer` or `hover` in any case goes to the page's own `matchMedia`. A plain `(min-width: 1024px)` breakpoint is such a query. |
| `HostObjects.Perform` | redbook/ua_presets.user.js:169-174 | A statement throws exactly when its object is missing or the property is not definable (or not writable). Otherwise it changes that one property and nothing else. |
| `HostObjects.DefineProp` | redbook/ua_presets.user.js:167-176 | `defineProp` never throws. It touches only its own property: it defines the getter when that is allowed, else assigns when that is allowed, else does nothing. |
| `HostObjects.TryBlockFrame` | redbook/ua_presets.user.js:213-225 | A `try` block keeps the set of objects and changes only the properties its statements name. |
| `HostObjects.TryBlockCompletes` | redbook/ua_presets.user.js:213-225 | On configurable objects, a block of definitions on existing objects runs to its end. |
| `HostObjects.TryBlockLastWrite` | redbook/ua_presets.user.js:213-225 | Such a block leaves each property with the value of the last statement that names it, or absent when that statement is a deletion. |
| `HostObjects.TryBlockWrites` | redbook/ua_presets.user.js:213-225 | With distinct properties, every statement's value is in place afterwards. |
| `HostObjects.TryBlockAborted` | redbook/ua_presets.user.js:213-225 | Once a statement throws, the statements after it have no effect. |
| `HostObjects.TryBlockKeepsConfigurable` | redbook/ua_presets.user.js:171 | Objects that start configurable (every object extensible, every existing property configurable) stay so wherever the block stops. A getter the script defines is therefore replaceable by a later override. |
| `HostObjects.DefinePropKeepsConfigurable` | redbook/ua_presets.user.js:167-176 | The same holds for `defineProp`. |
| `PageSpoof.NavigatorSimple` | redbook/ua_presets.user.js:178-188 | It changes only `userAgent`, `platform`, `appVersion` and `vendor` of `navigator`. |
| `PageSpoof.UserAgentDataOverride` | redbook/ua_presets.user.js:190-210 | It changes only `navigator.userAgentData`. |
| `PageSpoof.IdentityOverridesSet` | redbook/ua_presets.user.js:178-210 | On configurable objects with `navigator` present, the four identity properties and `userAgentData` read the preset's values afterwards. |
| `PageSpoof.ScreenOps` | redbook/ua_presets.user.js:215-246 | The screen block is nine distinct definitions, all on screen and window sizes. |
| `PageSpoof.Block` | redbook/ua_presets.user.js:213-225 | A `try` block changes nothing outside the properties it names. |
| `PageSpoof.ScreenBlockSets` | redbook/ua_presets.user.js:215-224 | On configurable objects with `screen` and `window` present, every screen and window size reads its new value. |
| `PageSpoof.BlockSets` | redbook/ua_presets.user.js:213-225 | On configurable objects, every definition of a block of distinct definitions on present objects takes effect. |
| `PageSpoof.TouchForPc` | redbook/ua_presets.user.js:250-268 | The touch override touches only `maxTouchPoints` and the three touch handlers. |
| `PageSpoof.TouchForPcSets` | redbook/ua_presets.user.js:250-268 | On configurable objects with `navigator` and `window` present, `maxTouchPoints` reads 0 and the touch handlers are gone. |
| `PageSpoof.TouchDeletesSets` | redbook/ua_presets.user.js:255-266 | On configurable objects with `window` present, each of `ontouchstart`, `ontouchmove` and `ontouchend` reads as absent afterwards. |
| `PageSpoof.DefineBlock` | redbook/ua_presets.user.js:270-275 | A one-definition block changes only its property. |
| `PageSpoof.DefineBlockSets` | redbook/ua_presets.user.js:384-396 | On configurable objects where the target object exists, the property then reads the defined value. |
| `PageSpoof.MediaQueriesForPc` | redbook/ua_presets.user.js:277-310 | The override changes only `window.matchMedia`. |
| `PageSpoof.MediaQueriesForPcSets` | redbook/ua_presets.user.js:280-307 | When `matchMedia` is assignable, it becomes the filter around the original function. |
| `PageSpoof.ConnectionOverride` | redbook/ua_presets.user.js:398-414 | It changes only `navigator.connection.type`, and only when the connection exists. |
| `PageSpoof.ConnectionOverrideSets` | redbook/ua_presets.user.js:401-402 | On configurable objects, when the connection exists, its type reads the given kind. |
| `PageSpoof.OrientationOps` | redbook/ua_presets.user.js:347-366 | The block has distinct definitions on the two orientation properties only. `screen.orientation` is defined only when the screen already has one. |
| `PageSpoof.OrientationForPc` | redbook/ua_presets.user.js:344-368 | It changes only the two orientation properties. On a page without `screen`, the read of `screen.orientation` throws first, and the page is left unchanged. |
| `PageSpoof.OrientationForPcSets` | redbook/ua_presets.user.js:344-368 | On configurable objects with `screen` and `window` present, `window.orientation` reads 0. `screen.orientation` reads the landscape object when the page had one, and stays absent when it had none. |
| `PageSpoof.MarkSpoofed` | redbook/ua_presets.user.js:480-488 | The marker changes only `window.__UA_SPOOFED__`. |
| `PageSpoof.PcDisplay` | redbook/ua_presets.user.js:455-456 | The screen and touch overrides change only screen, size and touch properties. |
| `PageSpoof.PcDisplaySets` | redbook/ua_presets.user.js:455-456 | On configurable pages with `navigator`, `screen` and `window`, the page then shows a 1920x1080 screen (1040 available height), ratio 1 and no touch support. |
| `PageSpoof.PcCapabilities` | redbook/ua_presets.user.js:457-460 | The media, hardware, connection and orientation overrides change only their own properties. |
| `PageSpoof.PcCapabilitiesSet` | redbook/ua_presets.user.js:457-460 | On configurable pages with `navigator`, `screen` and `window`, the page shows 8 cores, an ethernet connection when one exists, and landscape orientation. |
| `PageSpoof.PcGroup` | redbook/ua_presets.user.js:454-461 | The PC group changes only the PC properties. |
| `PageSpoof.PcGroupSets` | redbook/ua_presets.user.js:454-461 | On configurable pages with `navigator`, `screen` and `window`, every PC property reads its PC value after the PC group. |
| `PageSpoof.MobileGroup` | redbook/ua_presets.user.js:469-474 | The mobile group changes only screen, size, touch, core and connection properties. |
| `PageSpoof.MobileGroupSets` | redbook/ua_presets.user.js:469-474 | On configurable pages with `navigator`, `screen` and `window`, the page shows the target's handset size (status bar 44 px), ratio 2, 5 touch points, 4 cores, and wifi when a connection exists. |
| `PageSpoof.PcGroupKeepsIdentity` | redbook/ua_presets.user.js:450-461 | The PC group does not undo the identity overrides. |
| `PageSpoof.MobileGroupKeepsIdentity` | redbook/ua_presets.user.js:450-474 | Nor does the mobile group. |
| `PageSpoof.Grouped` | redbook/ua_presets.user.js:450-474 | The run before the marker keeps the set of objects. |
| `PageSpoof.Spoofed` | redbook/ua_presets.user.js:450-488 | The whole run differs from the run before the marker only in `__UA_SPOOFED__`. |
| `PageSpoof.SpoofedIdentity` | redbook/ua_presets.user.js:450-488 | On configurable pages with `navigator`, `screen` and `window`, the page shows the preset's identity after the run, whatever the target's group. |
| `PageSpoof.SpoofedPc` | redbook/ua_presets.user.js:454-488 | On configurable pages with `navigator`, `screen` and `window`, a PC target ends up showing the full PC profile. |
| `PageSpoof.SpoofedMobile` | redbook/ua_presets.user.js:469-488 | On configurable pages with `navigator`, `screen` and `window`, a mobile target ends up showing the mobile profile of that target. |
| `PageSpoof.SpoofedNeither` | redbook/ua_presets.user.js:454-488 | For a target in neither list, only the identity, `userAgentData` and the marker change. |
| `PageSpoof.ShippedRunShowsMac` | redbook/ua_presets.user.js:131-488 | As shipped, a configurable page with `navigator`, `screen` and `window` ends up showing the mac identity and the PC profile. |
| `PageSpoof.FrameIdentityOps` | redbook/ua_presets.user.js:427-439 | The iframe block is five distinct definitions on the frame's `navigator`, ending with `userAgentData`. |
| `PageSpoof.FrameLoaded` | redbook/ua_presets.user.js:419-445 | A frame exists afterwards exactly when it did before. Only the frame's identity and `userAgentData` can change. An element that is not an iframe is left alone. |
| `PageSpoof.FrameLoadedSets` | redbook/ua_presets.user.js:421-439 | On a configurable iframe whose `navigator` exists, the frame shows the preset's identity. Its high-entropy answers agree with the top window's for every key. |
| `PageSpoof.FrameIdentitySets` | redbook/ua_presets.user.js:427-439 | On a configurable frame whose `navigator` exists, the five iframe definitions all take effect. |
| `PageSpoof.FrameLoadedAborts` | redbook/ua_presets.user.js:426-440 | If the frame's `userAgent` cannot be redefined, the block throws at its first statement and the frame is unchanged. This is stricter than the top window's `defineProp`. |
| `PageScript.Realm.constructor` | redbook/ua_presets.user.js:178-188 | A realm starts with the given host objects: the `navigator`, `screen` and `window` the script then writes to. It is model scaffolding, not a statement of the script. |
| `PageScript.Realm.Execute` | redbook/ua_presets.user.js:169-174 | One host statement either succeeds, with the new objects, or throws and changes nothing. |
| `PageScript.Realm.DefineProp` | redbook/ua_presets.user.js:167-176 | The imperative `defineProp` leaves exactly the objects the specification describes. |
| `PageScript.Realm.TryStatements` | redbook/ua_presets.user.js:213-225 | The loop over a `try` block's statements ends in the block's specified outcome: completed or aborted, with the same objects. |
| `PageScript.Page.constructor` | redbook/ua_presets.user.js:131-158 | The script starts with the selected target and its preset. |
| `PageScript.Page.OverrideNavigatorSimple` | redbook/ua_presets.user.js:178-188 | The four `defineProp` calls leave the objects `NavigatorSimple` specifies. |
| `PageScript.Page.OverrideUserAgentData` | redbook/ua_presets.user.js:190-210 | Likewise for `userAgentData`. |
| `PageScript.Page.OverrideScreenForPc` | redbook/ua_presets.user.js:212-226 | The PC screen block as statements. |
| `PageScript.Page.OverrideScreenForMobile` | redbook/ua_presets.user.js:228-248 | The mobile screen block, with its sizes chosen by target. |
| `PageScript.Page.OverrideTouchForPc` | redbook/ua_presets.user.js:250-268 | The touch block, with its nested deletion block. |
| `PageScript.Page.OverrideTouchForMobile` | redbook/ua_presets.user.js:270-275 | `maxTouchPoints` set to 5 in its own block. |
| `PageScript.Page.OverrideMediaQueriesForPc` | redbook/ua_presets.user.js:277-310 | `matchMedia` wrapped around the original. |
| `PageScript.Page.OverrideHardwareConcurrency` | redbook/ua_presets.user.js:384-396 | The core count in its own block. |
| `PageScript.Page.OverrideConnection` | redbook/ua_presets.user.js:398-414 | The connection type, only when a connection exists. |
| `PageScript.Page.OverrideOrientationForPc` | redbook/ua_presets.user.js:344-368 | The orientation block runs only when `screen` exists; otherwise it throws at once. It leaves the objects `OrientationForPc` specifies. |
| `PageScript.Page.MarkSpoofed` | redbook/ua_presets.user.js:480-488 | The marker assignment. |
| `PageScript.Page.Run` | redbook/ua_presets.user.js:450-488 | The script body, in its order, leaves exactly the `Spoofed` objects, so every `PageSpoof.Spoofed*` fact holds of the page. |
| `PageScript.Page.OnFrameLoad` | redbook/ua_presets.user.js:419-442 | The load handler leaves the frame as `FrameLoaded` specifies. |

## Left out

- The Loon globals `$request`, `$argument`, `$persistentStore` and `$done` become parameters and results of `HeaderRewriter.Rewrite`. The store write is returned as a value.
- The request body block (lines 188-211 of the Loon script) changes nothing: its JSON parse has no effect. The result therefore never carries a body.
- Header values are strings, string arrays (cookies only) or other values. Numbers and objects in headers are kept opaque.
- `toLowerCase` is modelled on ASCII letters only. Unicode case mapping (for example KELVIN SIGN to `k`) is not modelled.
- JavaScript's `in` also sees `Object.prototype` names (`"toString" in PRESETS`). The model checks own keys only.
- JavaScript objects list integer-like keys first. The model keeps insertion order for every name.
- HeaderRewriter.RewriteIdempotent: idempotence is stated as "reads the same under every name", not as equal lists. On a second run `cookie` can move after the `sec-fetch-site` headers.
- The DOM side of the userscript is not part of this model: the viewport meta rewrite, its `MutationObserver`, and the `readyState`/`DOMContentLoaded` scheduling.
- `overridePointerEventsForPC` does nothing: its only statement is an `if` with an empty body. It is not modelled.
- The `createElement` patch and the `load` listener are modelled only as `PageScript.Page.OnFrameLoad` on a frame window that may be missing. `String(tagName)` is taken to be a string already.
- Getters are modelled as the fixed values they return. Property descriptors, prototype chains and deletion of a prototype's property are reduced to "definable", "assignable" and "present" flags per property.
- The original `matchMedia` is an opaque function, and the fake media list's listener methods are left out.
- `getHighEntropyValues` returns the map directly, not a `Promise`. `keys` is a sequence of strings, and the result's key order is not modelled.
- `Date.now()` in the marker and the `console.error` call are left out. The marker's contents are not stated, only that it is the one property it changes.
- PageSpoof.SpoofedPc and PageSpoof.SpoofedMobile: proved for pages whose host properties are all configurable and where `navigator`, `screen` and `window` exist. Other pages are covered only by the frame facts of `Spoofed`.
- The iframe's `userAgentData` is modelled as its own value, whose `getHighEntropyValues` uses the `|| ""` truthiness test. `SpoofPresets.IframeEntropyAgrees` proves it agrees with the top window's.
