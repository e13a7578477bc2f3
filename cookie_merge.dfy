/**
  The cookie merge the rewriter performs for the "mac" preset
  (redbook/ua_presets.js:106-167): every cookie-named header, in any casing and
  in either the string or the HTTP/2 array form, is flattened into one ordered
  list of `name=value` pairs; each `xsecappid` pair is forced to the PC web
  client's value (or one is appended); and the cookie headers are replaced by a
  single merged `cookie` header.
 */
module CookieMerge {
  import opened Wrappers
  import opened Text
  import opened Headers

  const AppIdPrefix: string := "xsecappid="
  const AppIdPair: string := "xsecappid=xhs-pc-web"

  // ------------------------------------------------------------ list helpers

  /** `xs.flatMap(f)`, built from the back as the script's loops build it. */
  function ConcatMap<T>(xs: seq<T>, f: T -> seq<string>): seq<string>
  {
    if xs == [] then [] else ConcatMap(xs[..|xs| - 1], f) + f(xs[|xs| - 1])
  }

  lemma {:induction false} ConcatMapAppend<T>(a: seq<T>, b: seq<T>, f: T -> seq<string>)
    ensures ConcatMap(a + b, f) == ConcatMap(a, f) + ConcatMap(b, f)
    decreases |b|
  {
    if b == [] {
      assert a + b == a;
    } else {
      ConcatMapAppend(a, b[..|b| - 1], f);
      assert (a + b)[..|a + b| - 1] == a + b[..|b| - 1];
    }
  }

  /** How many elements satisfy `p`. */
  function Count<T>(xs: seq<T>, p: T -> bool): nat
  {
    if xs == [] then 0 else Count(xs[..|xs| - 1], p) + (if p(xs[|xs| - 1]) then 1 else 0)
  }

  lemma {:induction false} CountAppend<T>(a: seq<T>, b: seq<T>, p: T -> bool)
    ensures Count(a + b, p) == Count(a, p) + Count(b, p)
    decreases |b|
  {
    if b == [] {
      assert a + b == a;
    } else {
      CountAppend(a, b[..|b| - 1], p);
      assert (a + b)[..|a + b| - 1] == a + b[..|b| - 1];
    }
  }

  // ------------------------------------------------------------ splitting

  /** One split piece, trimmed, kept only when something is left. */
  function Segment(piece: string): seq<string>
  {
    if Trim(piece) == [] then [] else [Trim(piece)]
  }

  /** `s.split(';').map(c => c.trim()).filter(c => c)`. */
  function CookieSegments(s: string): seq<string>
  {
    ConcatMap(Split(s, ';'), Segment)
  }

  /** A pair as the merged header holds it: non-empty, trimmed, without `;`. */
  predicate WellFormedPair(p: string)
  {
    p != [] && Trimmed(p) && ';' !in p
  }

  lemma {:induction false} SegmentsWellFormed(pieces: seq<string>)
    requires forall i :: 0 <= i < |pieces| ==> ';' !in pieces[i]
    ensures forall p :: p in ConcatMap(pieces, Segment) ==> WellFormedPair(p)
    decreases |pieces|
  {
    if pieces != [] {
      SegmentsWellFormed(pieces[..|pieces| - 1]);
      TrimFacts(pieces[|pieces| - 1]);
    }
  }

  lemma CookieSegmentsWellFormed(s: string)
    ensures forall p :: p in CookieSegments(s) ==> WellFormedPair(p)
  {
    SplitPieces(s, ';');
    SegmentsWellFormed(Split(s, ';'));
  }

  /** Text separated by a `;` segments as its two sides do. */
  lemma CookieSegmentsAtSeparator(a: string, b: string)
    ensures CookieSegments(a + ";" + b) == CookieSegments(a) + CookieSegments(b)
  {
    assert a + ";" + b == a + [';'] + b;
    SplitAtSeparator(a, b, ';');
    ConcatMapAppend(Split(a, ';'), Split(b, ';'), Segment);
  }

  /** A blank in front, as after "; ", changes nothing. */
  lemma CookieSegmentsLeadingSpace(s: string)
    ensures CookieSegments(" " + s) == CookieSegments(s)
  {
    var t := Split(s, ';');
    SplitAfterPrefix(" ", s, ';');
    var u := Split(" " + s, ';');
    assert u == [" " + t[0]] + t[1..];
    assert t == [t[0]] + t[1..];
    ConcatMapAppend([" " + t[0]], t[1..], Segment);
    ConcatMapAppend([t[0]], t[1..], Segment);
    TrimLeadingSpace(t[0]);
    assert ConcatMap([" " + t[0]], Segment) == Segment(" " + t[0]);
    assert ConcatMap([t[0]], Segment) == Segment(t[0]);
  }

  /** Text without `;` segments into its trimmed self, or into nothing. */
  lemma CookieSegmentsSingle(s: string)
    requires ';' !in s
    ensures CookieSegments(s) == Segment(s)
  {
    SplitWithoutSeparator(s, ';');
    assert ConcatMap([s], Segment) == ConcatMap([], Segment) + Segment(s);
  }

  /** Segmenting `pairs.join('; ')` gives the pairs back. */
  lemma {:induction false} CookieSegmentsOfJoin(pairs: seq<string>)
    requires forall i :: 0 <= i < |pairs| ==> WellFormedPair(pairs[i])
    ensures CookieSegments(Join(pairs, "; ")) == pairs
    decreases |pairs|
  {
    if pairs == [] {
      CookieSegmentsOfEmpty();
    } else {
      TrimOfTrimmed(pairs[0]);
      CookieSegmentsSingle(pairs[0]);
      if |pairs| > 1 {
        CookieSegmentsOfJoin(pairs[1..]);
        CookieSegmentsOfJoinStep(pairs);
      }
    }
  }

  lemma CookieSegmentsOfEmpty()
    ensures CookieSegments([]) == []
  {
    assert Split([], ';') == [[]];
    assert ConcatMap([[]], Segment) == ConcatMap([], Segment) + Segment([]);
    assert Trim([]) == [];
  }

  /** A joined list splits into its first pair and the joined rest. */
  lemma CookieSegmentsOfJoinStep(pairs: seq<string>)
    requires |pairs| > 1 && WellFormedPair(pairs[0])
    requires CookieSegments(pairs[0]) == [pairs[0]]
    requires CookieSegments(Join(pairs[1..], "; ")) == pairs[1..]
    ensures CookieSegments(Join(pairs, "; ")) == pairs
  {
    var tail := Join(pairs[1..], "; ");
    assert Join(pairs, "; ") == pairs[0] + ";" + (" " + tail);
    CookieSegmentsAtSeparator(pairs[0], " " + tail);
    CookieSegmentsLeadingSpace(tail);
    assert pairs == [pairs[0]] + pairs[1..];
  }

  // ------------------------------------------------------------ collecting

  /** What one element of an array-valued cookie header contributes (lines 116-126). */
  function ItemPairs(item: Item): seq<string>
  {
    match item
    case ItemStr(s) => if ';' in s then CookieSegments(s) else [Trim(s)]
    case ItemOther => []
  }

  /** What one cookie header's value contributes: array items, a split string, or nothing. */
  function ValuePairs(v: HeaderValue): seq<string>
  {
    match v
    case Arr(items) => ConcatMap(items, ItemPairs)
    case Str(s) => CookieSegments(s)
    case Other(_) => []
  }

  function EntryPairs(e: Header): seq<string>
  {
    if IsCookieName(e.0) then ValuePairs(e.1) else []
  }

  /** `allCookies`: the pairs of every cookie-named header, in header order. */
  function CollectedPairs(h: Headers): seq<string>
  {
    ConcatMap(h, EntryPairs)
  }

  /** The loop of lines 110-134. */
  method CollectCookies(headers: Headers) returns (allCookies: seq<string>)
    ensures allCookies == CollectedPairs(headers)
  {
    allCookies := [];
    var i := 0;
    while i < |headers|
      invariant 0 <= i <= |headers|
      invariant allCookies == CollectedPairs(headers[..i])
    {
      var key := headers[i].0;
      var cookieValue := headers[i].1;
      ghost var before := allCookies;
      if key != [] && IsCookieName(key) {
        match cookieValue {
          case Arr(items) =>
            var j := 0;
            while j < |items|
              invariant 0 <= j <= |items|
              invariant allCookies == before + ConcatMap(items[..j], ItemPairs)
            {
              match items[j] {
                case ItemStr(item) =>
                  if ';' in item {
                    allCookies := allCookies + CookieSegments(item);
                  } else {
                    allCookies := allCookies + [Trim(item)];
                  }
                case ItemOther =>
              }
              assert items[..j + 1][..j] == items[..j];
              j := j + 1;
            }
            assert items[..j] == items;
          case Str(s) =>
            allCookies := allCookies + CookieSegments(s);
          case Other(_) =>
        }
      }
      assert headers[..i + 1][..i] == headers[..i];
      i := i + 1;
    }
    assert headers[..i] == headers;
  }

  /** Every collected pair is free of `;`, so it survives a later join and split. */
  lemma CollectedPairsAvoidSemicolon(h: Headers)
    ensures forall c :: c in CollectedPairs(h) ==> ';' !in c
  {
    forall c | c in CollectedPairs(h) ensures ';' !in c {
      CollectedAvoidAt(h, c);
    }
  }

  lemma {:induction false} CollectedAvoidAt(h: Headers, c: string)
    requires c in CollectedPairs(h)
    ensures ';' !in c
    decreases |h|
  {
    var init := h[..|h| - 1];
    var e := h[|h| - 1];
    if c in CollectedPairs(init) {
      CollectedAvoidAt(init, c);
    } else {
      assert c in ValuePairs(e.1);
      match e.1 {
        case Str(s) => CookieSegmentsWellFormed(s);
        case Arr(items) => ItemsAvoidAt(items, c);
        case Other(_) =>
      }
    }
  }

  lemma {:induction false} ItemsAvoidAt(items: seq<Item>, c: string)
    requires c in ConcatMap(items, ItemPairs)
    ensures ';' !in c
    decreases |items|
  {
    var init := items[..|items| - 1];
    if c in ConcatMap(init, ItemPairs) {
      ItemsAvoidAt(init, c);
    } else {
      match items[|items| - 1] {
        case ItemStr(s) =>
          if ';' in s {
            CookieSegmentsWellFormed(s);
          } else {
            TrimFacts(s);
          }
        case ItemOther =>
      }
    }
  }

  // ------------------------------------------------------------ rewriting

  predicate IsAppIdPair(c: string)
  {
    StartsWith(Trim(c), AppIdPrefix)
  }

  /** What one collected cookie becomes in `processedCookies` (lines 138-149). */
  function Rewritten(c: string): seq<string>
  {
    var t := Trim(c);
    if t == [] then [] else if StartsWith(t, AppIdPrefix) then [AppIdPair] else [t]
  }

  function RewritePairs(cs: seq<string>): seq<string>
  {
    ConcatMap(cs, Rewritten)
  }

  /** How many `xsecappid=` pairs a cookie list holds. */
  function AppIdCount(cs: seq<string>): nat
  {
    Count(cs, IsAppIdPair)
  }

  /** `processedCookies` after the loop and the append of lines 151-154. */
  function ProcessPairs(cs: seq<string>): seq<string>
  {
    RewritePairs(cs) + (if AppIdCount(cs) > 0 then [] else [AppIdPair])
  }

  /** The loop of lines 137-154. */
  method ProcessCookies(allCookies: seq<string>) returns (processed: seq<string>)
    ensures processed == ProcessPairs(allCookies)
  {
    processed := [];
    var hasXsecappid := false;
    var i := 0;
    while i < |allCookies|
      invariant 0 <= i <= |allCookies|
      invariant processed == RewritePairs(allCookies[..i])
      invariant hasXsecappid <==> AppIdCount(allCookies[..i]) > 0
    {
      assert allCookies[..i + 1][..i] == allCookies[..i];
      var cookie := Trim(allCookies[i]);
      if cookie != [] {
        if StartsWith(cookie, AppIdPrefix) {
          processed := processed + [AppIdPair];
          hasXsecappid := true;
        } else {
          processed := processed + [cookie];
        }
      }
      i := i + 1;
    }
    assert allCookies[..i] == allCookies;
    if !hasXsecappid {
      processed := processed + [AppIdPair];
    }
  }

  /** The delete loop of lines 160-164: every cookie-named key goes, the rest keep their order. */
  method RemoveCookieHeaders(headers: Headers) returns (kept: Headers)
    ensures kept == WithoutCookies(headers)
  {
    kept := [];
    var i := |headers|;
    while i > 0
      invariant 0 <= i <= |headers|
      invariant kept == WithoutCookies(headers[i..])
    {
      i := i - 1;
      assert headers[i..] == [headers[i]] + headers[i + 1..];
      var key := headers[i].0;
      if !(key != [] && IsCookieName(key)) {
        kept := [headers[i]] + kept;
      }
    }
  }

  /**
    The rewritten list is the collected list trimmed, with empty pairs dropped
    and each `xsecappid=` pair replaced by the PC web value: one entry per
    surviving pair, in order, all other pairs unchanged.
   */
  lemma {:induction false} RewritePairsPointwise(cs: seq<string>)
    ensures |RewritePairs(cs)| == |ConcatMap(cs, Segment)|
    ensures forall i :: 0 <= i < |RewritePairs(cs)| ==>
      var t := ConcatMap(cs, Segment)[i];
      RewritePairs(cs)[i] == if StartsWith(t, AppIdPrefix) then AppIdPair else t
    decreases |cs|
  {
    if cs != [] {
      RewritePairsPointwise(cs[..|cs| - 1]);
    }
  }

  /** One cookie contributes an `xsecappid=` pair after rewriting exactly when it was one. */
  lemma RewrittenAppIdCount(c: string)
    ensures Count(Rewritten(c), IsAppIdPair) == if IsAppIdPair(c) then 1 else 0
  {
    var t := Trim(c);
    TrimIdempotent(c);
    AppIdPairTrimmed();
    if t != [] {
      assert Rewritten(c) == [] + [Rewritten(c)[0]];
    }
  }

  /** The pair the rewrite inserts has no white space to trim. */
  lemma AppIdPairTrimmed()
    ensures Trim(AppIdPair) == AppIdPair
  {
    assert AppIdPair[0] == 'x' && AppIdPair[|AppIdPair| - 1] == 'b';
    TrimOfTrimmed(AppIdPair);
  }

  /** Rewriting keeps the number of `xsecappid=` pairs. */
  lemma {:induction false} RewriteKeepsAppIdCount(cs: seq<string>)
    ensures AppIdCount(RewritePairs(cs)) == AppIdCount(cs)
    decreases |cs|
  {
    if cs != [] {
      var init := cs[..|cs| - 1];
      var c := cs[|cs| - 1];
      RewriteKeepsAppIdCount(init);
      assert RewritePairs(cs) == RewritePairs(init) + Rewritten(c);
      CountAppend(RewritePairs(init), Rewritten(c), IsAppIdPair);
      RewrittenAppIdCount(c);
    }
  }

  /**
    After processing there is at least one `xsecappid` pair, and exactly one
    when the input held at most one.
   */
  lemma ProcessedAppIdCount(cs: seq<string>)
    ensures AppIdCount(ProcessPairs(cs)) == if AppIdCount(cs) == 0 then 1 else AppIdCount(cs)
  {
    RewriteKeepsAppIdCount(cs);
    var extra := if AppIdCount(cs) > 0 then [] else [AppIdPair];
    CountAppend(RewritePairs(cs), extra, IsAppIdPair);
    AppIdPairTrimmed();
    assert extra != [] ==> extra == [] + [AppIdPair];
  }

  /** Every processed pair is well formed, and every `xsecappid=` pair among them is the PC web one. */
  lemma {:induction false} ProcessedPairsShape(cs: seq<string>)
    requires forall c :: c in cs ==> ';' !in c
    ensures forall p :: p in ProcessPairs(cs) ==> WellFormedPair(p)
    ensures forall p :: p in ProcessPairs(cs) && StartsWith(p, AppIdPrefix) ==> p == AppIdPair
  {
    RewriteShape(cs);
    AppIdPairTrimmed();
  }

  lemma {:induction false} RewriteShape(cs: seq<string>)
    requires forall c :: c in cs ==> ';' !in c
    ensures forall p :: p in RewritePairs(cs) ==> WellFormedPair(p)
    ensures forall p :: p in RewritePairs(cs) && StartsWith(p, AppIdPrefix) ==> p == AppIdPair
    decreases |cs|
  {
    if cs != [] {
      var c := cs[|cs| - 1];
      RewriteShape(cs[..|cs| - 1]);
      TrimFacts(c);
      AppIdPairTrimmed();
    }
  }

  /** Processing an already processed list changes nothing. */
  lemma {:induction false} ProcessFixedPoint(ps: seq<string>)
    requires forall p :: p in ps ==> WellFormedPair(p)
    requires forall p :: p in ps && StartsWith(p, AppIdPrefix) ==> p == AppIdPair
    ensures RewritePairs(ps) == ps
    decreases |ps|
  {
    if ps != [] {
      var init := ps[..|ps| - 1];
      var p := ps[|ps| - 1];
      ProcessFixedPoint(init);
      assert p in ps;
      TrimOfTrimmed(p);
      assert ps == init + [p];
    }
  }

  /** The merged header value: `processedCookies.join('; ')`. */
  function MergedCookie(h: Headers): string
  {
    Join(ProcessPairs(CollectedPairs(h)), "; ")
  }

  /** Lines 160-167: cookie headers deleted, one merged `cookie` header appended. */
  function MergeCookies(h: Headers): Headers
  {
    Put(WithoutCookies(h), "cookie", Str(MergedCookie(h)))
  }

  /**
    After the merge no cookie-named header is left but `cookie`, which holds
    the merged value; every other header keeps its value.
   */
  lemma MergeCookiesLookup(h: Headers, n: string)
    ensures Get(MergeCookies(h), n) ==
      if n == "cookie" then Some(Str(MergedCookie(h)))
      else if IsCookieName(n) then None
      else Get(h, n)
  {
  }

  /** The merged value, segmented again, is exactly the processed pair list. */
  lemma MergedCookieSegments(h: Headers)
    ensures CookieSegments(MergedCookie(h)) == ProcessPairs(CollectedPairs(h))
  {
    var ps := ProcessPairs(CollectedPairs(h));
    CollectedPairsAvoidSemicolon(h);
    ProcessedPairsShape(CollectedPairs(h));
    CookieSegmentsOfJoin(ps);
  }

  /**
    Merging is idempotent on the pair level: processing the pairs of a merged
    header yields the same merged value.
   */
  lemma MergeIdempotent(h: Headers)
    ensures ProcessPairs(CookieSegments(MergedCookie(h))) == ProcessPairs(CollectedPairs(h))
  {
    var ps := ProcessPairs(CollectedPairs(h));
    MergedCookieSegments(h);
    CollectedPairsAvoidSemicolon(h);
    ProcessedPairsShape(CollectedPairs(h));
    ProcessFixedPoint(ps);
    ProcessedAppIdCount(CollectedPairs(h));
  }

  /** The array form of a cookie header whose elements are the given strings. */
  function AsItems(parts: seq<string>): (r: seq<Item>)
    ensures |r| == |parts|
    ensures forall i :: 0 <= i < |parts| ==> r[i] == ItemStr(parts[i])
  {
    if parts == [] then [] else AsItems(parts[..|parts| - 1]) + [ItemStr(parts[|parts| - 1])]
  }

  /**
    A cookie header sent as one "; "-joined string or as an array of the same
    strings (the HTTP/2 form) merges to the same value.
   */
  lemma ArrayFormAgrees(parts: seq<string>)
    ensures ProcessPairs(ValuePairs(Arr(AsItems(parts)))) == ProcessPairs(ValuePairs(Str(Join(parts, "; "))))
  {
    ItemsSegments(parts);
    CookieSegmentsWellFormed(Join(parts, "; "));
    SegmentsOfWellFormed(CookieSegments(Join(parts, "; ")));
    SegmentsDecide(ConcatMap(AsItems(parts), ItemPairs), CookieSegments(Join(parts, "; ")));
  }

  /** Trimming and dropping empties again after the array form leaves what the string form gives. */
  lemma {:induction false} ItemsSegments(parts: seq<string>)
    ensures ConcatMap(ConcatMap(AsItems(parts), ItemPairs), Segment) == CookieSegments(Join(parts, "; "))
    decreases |parts|
  {
    if parts == [] {
      EmptySegments();
    } else {
      var init := parts[..|parts| - 1];
      var last := parts[|parts| - 1];
      var front := ConcatMap(AsItems(init), ItemPairs);
      assert AsItems(parts)[..|parts| - 1] == AsItems(init);
      assert ConcatMap(AsItems(parts), ItemPairs) == front + ItemPairs(ItemStr(last));
      ConcatMapAppend(front, ItemPairs(ItemStr(last)), Segment);
      ItemSegments(last);
      ItemsSegments(init);
      if |parts| == 1 {
        assert init == [];
        EmptySegments();
        assert Join(parts, "; ") == last;
      } else {
        JoinLastSep(init, last);
        assert init + [last] == parts;
        CookieSegmentsAtSeparator(Join(init, "; "), " " + last);
        CookieSegmentsLeadingSpace(last);
      }
    }
  }

  lemma EmptySegments()
    ensures CookieSegments([]) == []
  {
    assert Split([], ';') == [[]];
    assert ConcatMap([[]], Segment) == ConcatMap([], Segment) + Segment([]);
    assert Trim([]) == [];
  }

  lemma ItemSegments(s: string)
    ensures ConcatMap(ItemPairs(ItemStr(s)), Segment) == CookieSegments(s)
  {
    if ';' in s {
      CookieSegmentsWellFormed(s);
      SegmentsOfWellFormed(CookieSegments(s));
    } else {
      CookieSegmentsSingle(s);
      TrimIdempotent(s);
      assert ConcatMap([Trim(s)], Segment) == ConcatMap([], Segment) + Segment(Trim(s));
    }
  }

  lemma {:induction false} SegmentsOfWellFormed(ps: seq<string>)
    requires forall p :: p in ps ==> WellFormedPair(p)
    ensures ConcatMap(ps, Segment) == ps
    decreases |ps|
  {
    if ps != [] {
      SegmentsOfWellFormed(ps[..|ps| - 1]);
      assert ps[|ps| - 1] in ps;
      TrimOfTrimmed(ps[|ps| - 1]);
      assert ps == ps[..|ps| - 1] + [ps[|ps| - 1]];
    }
  }

  lemma {:induction false} JoinLastSep(init: seq<string>, last: string)
    requires init != []
    ensures Join(init + [last], "; ") == Join(init, "; ") + ";" + (" " + last)
    decreases |init|
  {
    if |init| > 1 {
      JoinLastSep(init[1..], last);
      assert (init + [last])[1..] == init[1..] + [last];
    }
  }

  /** Processing depends on a cookie list only through its trimmed, non-empty pairs. */
  lemma SegmentsDecide(a: seq<string>, b: seq<string>)
    requires ConcatMap(a, Segment) == ConcatMap(b, Segment)
    ensures ProcessPairs(a) == ProcessPairs(b)
  {
    RewritePairsPointwise(a);
    RewritePairsPointwise(b);
    AppIdCountBySegments(a);
    AppIdCountBySegments(b);
  }

  lemma {:induction false} AppIdCountBySegments(cs: seq<string>)
    ensures AppIdCount(cs) == Count(ConcatMap(cs, Segment), IsAppIdPair)
    decreases |cs|
  {
    if cs != [] {
      var init := cs[..|cs| - 1];
      var c := cs[|cs| - 1];
      AppIdCountBySegments(init);
      CountAppend(ConcatMap(init, Segment), Segment(c), IsAppIdPair);
      TrimIdempotent(c);
      if Trim(c) != [] {
        assert Segment(c) == [] + [Trim(c)];
      }
    }
  }

  // ------------------------------------------------ effect of other headers

  lemma ConcatMapCons<T>(x: T, t: seq<T>, f: T -> seq<string>)
    ensures ConcatMap([x] + t, f) == f(x) + ConcatMap(t, f)
  {
    ConcatMapAppend([x], t, f);
    assert [x][..0] == [];
  }

  /** Assigning a header that is not a cookie leaves the collected pairs alone. */
  lemma {:induction false} CollectedPairsPut(h: Headers, k: string, v: HeaderValue)
    requires !IsCookieName(k)
    ensures CollectedPairs(Put(h, k, v)) == CollectedPairs(h)
    decreases |h|
  {
    if h == [] {
      ConcatMapCons((k, v), [], EntryPairs);
    } else {
      assert h == [h[0]] + h[1..];
      ConcatMapCons(h[0], h[1..], EntryPairs);
      if h[0].0 == k {
        ConcatMapCons((k, v), h[1..], EntryPairs);
      } else {
        CollectedPairsPut(h[1..], k, v);
        ConcatMapCons(h[0], Put(h[1..], k, v), EntryPairs);
      }
    }
  }

  /** Assignments to names that are not cookie names leave the collected pairs alone. */
  lemma {:induction false} CollectedPairsPutAll(h: Headers, assignments: seq<Header>)
    requires forall i :: 0 <= i < |assignments| ==> !IsCookieName(assignments[i].0)
    ensures CollectedPairs(PutAll(h, assignments)) == CollectedPairs(h)
    decreases |assignments|
  {
    var a := assignments;
    if a != [] {
      assert forall i :: 0 <= i < |a| - 1 ==> a[..|a| - 1][i] == a[i];
      CollectedPairsPutAll(h, a[..|a| - 1]);
      CollectedPairsPut(PutAll(h, a[..|a| - 1]), a[|a| - 1].0, a[|a| - 1].1);
    }
  }

  /** Headers none of which is cookie-named contribute no pairs. */
  lemma {:induction false} NoCookieHeadersNoPairs(h: Headers)
    requires forall i :: 0 <= i < |h| ==> !IsCookieName(h[i].0)
    ensures CollectedPairs(h) == []
    decreases |h|
  {
    if h != [] {
      NoCookieHeadersNoPairs(h[..|h| - 1]);
    }
  }

  /** After the merge, the only pairs left to collect are those of the merged value. */
  lemma CollectedPairsOfMerged(h: Headers)
    ensures CollectedPairs(MergeCookies(h)) == CookieSegments(MergedCookie(h))
  {
    var w := WithoutCookies(h);
    WithoutCookiesShape(h);
    NoCookieHeadersNoPairs(w);
    assert Get(w, "cookie").None?;
    PutPlacement(w, "cookie", Str(MergedCookie(h)));
    assert MergeCookies(h) == w + [("cookie", Str(MergedCookie(h)))];
    assert (w + [("cookie", Str(MergedCookie(h)))])[..|w|] == w;
  }
}
