/**
  The JavaScript string operations both scripts rely on: `toLowerCase` (ASCII
  letters), `startsWith`, `includes`, `split` on one character, `trim` and
  `join`, together with the facts about them that the header and cookie
  proofs need (split undoes join, trim is idempotent, ...).
 */
module Text {

  /** `toLowerCase` restricted to ASCII letters. */
  function LowerChar(c: char): char
  {
    if 'A' <= c <= 'Z' then (c as int + 32) as char else c
  }

  function Lower(s: string): string
  {
    seq(|s|, i requires 0 <= i < |s| => LowerChar(s[i]))
  }

  lemma LowerIdempotent(s: string)
    ensures Lower(Lower(s)) == Lower(s)
  {
  }

  /** A string without upper-case ASCII letters is its own lower-case form. */
  lemma LowerOfLowercase(s: string)
    requires forall c :: c in s ==> !('A' <= c <= 'Z')
    ensures Lower(s) == s
  {
    forall i | 0 <= i < |s|
      ensures Lower(s)[i] == s[i]
    {
      assert s[i] in s;
    }
  }

  predicate StartsWith(s: string, prefix: string)
  {
    |prefix| <= |s| && s[..|prefix|] == prefix
  }

  predicate EndsWith(s: string, suffix: string)
  {
    |suffix| <= |s| && s[|s| - |suffix|..] == suffix
  }

  /** `s.includes(sub)`, and equally a regular expression that is a plain literal. */
  predicate Contains(s: string, sub: string)
  {
    exists i {:trigger s[i..]} :: 0 <= i <= |s| - |sub| && StartsWith(s[i..], sub)
  }

  lemma ContainsAt(s: string, sub: string, i: nat)
    requires i + |sub| <= |s| && s[i..i + |sub|] == sub
    ensures Contains(s, sub)
  {
    assert StartsWith(s[i..], sub);
  }

  /** Lower-casing works character by character, so it distributes over concatenation. */
  lemma LowerAppend(a: string, b: string)
    ensures Lower(a + b) == Lower(a) + Lower(b)
  {
  }

  /** A substring stays a substring when text is added on either side. */
  lemma ContainsWithin(s: string, sub: string, before: string, after: string)
    requires Contains(s, sub)
    ensures Contains(before + s + after, sub)
  {
    var i :| 0 <= i <= |s| - |sub| && StartsWith(s[i..], sub);
    var t := before + s + after;
    assert t[|before| + i..|before| + i + |sub|] == s[i..i + |sub|];
    ContainsAt(t, sub, |before| + i);
  }

  /** Every prefix of a substring is a substring too. */
  lemma ContainsPrefix(s: string, sub: string, k: nat)
    requires Contains(s, sub) && k <= |sub|
    ensures Contains(s, sub[..k])
  {
    var i :| 0 <= i <= |s| - |sub| && StartsWith(s[i..], sub);
    assert s[i..i + k] == sub[..k];
    ContainsAt(s, sub[..k], i);
  }

  /** The characters `String.prototype.trim` removes: WhiteSpace and LineTerminator. */
  predicate IsJsSpace(c: char)
  {
    || c == '\t' || c == '\n' || c == '\U{B}' || c == '\U{C}' || c == '\r' || c == ' '
    || c == '\U{A0}' || c == '\U{1680}' || ('\U{2000}' <= c <= '\U{200A}')
    || c == '\U{2028}' || c == '\U{2029}' || c == '\U{202F}' || c == '\U{205F}'
    || c == '\U{3000}' || c == '\U{FEFF}'
  }

  function TrimStart(s: string): string
  {
    if |s| > 0 && IsJsSpace(s[0]) then TrimStart(s[1..]) else s
  }

  function TrimEnd(s: string): string
  {
    if |s| > 0 && IsJsSpace(s[|s| - 1]) then TrimEnd(s[..|s| - 1]) else s
  }

  function Trim(s: string): string
  {
    TrimEnd(TrimStart(s))
  }

  /** No white space at either end. */
  predicate Trimmed(s: string)
  {
    s == [] || (!IsJsSpace(s[0]) && !IsJsSpace(s[|s| - 1]))
  }

  lemma {:induction false} TrimStartFacts(s: string)
    ensures TrimStart(s) == [] || !IsJsSpace(TrimStart(s)[0])
    ensures EndsWith(s, TrimStart(s))
    decreases |s|
  {
    if |s| > 0 && IsJsSpace(s[0]) {
      TrimStartFacts(s[1..]);
      assert s[1..][|s[1..]| - |TrimStart(s[1..])|..] == s[|s| - |TrimStart(s)|..];
    }
  }

  lemma {:induction false} TrimEndFacts(s: string)
    ensures TrimEnd(s) == [] || !IsJsSpace(TrimEnd(s)[|TrimEnd(s)| - 1])
    ensures StartsWith(s, TrimEnd(s))
    ensures Trimmed(s) ==> TrimEnd(s) == s
    ensures s != [] && !IsJsSpace(s[0]) && TrimEnd(s) != [] ==> !IsJsSpace(TrimEnd(s)[0])
    decreases |s|
  {
    if |s| > 0 && IsJsSpace(s[|s| - 1]) {
      TrimEndFacts(s[..|s| - 1]);
      assert s[..|s| - 1][..|TrimEnd(s)|] == s[..|TrimEnd(s)|];
    }
  }

  /** What trim returns has no white space at either end, and is a piece of its input. */
  lemma TrimFacts(s: string)
    ensures Trimmed(Trim(s))
    ensures forall c :: c in Trim(s) ==> c in s
  {
    var t := TrimStart(s);
    TrimStartFacts(s);
    TrimEndFacts(t);
    var r := TrimEnd(t);
    assert r == t[..|r|];
    assert t == s[|s| - |t|..];
    forall c | c in r ensures c in s {
      var i :| 0 <= i < |r| && r[i] == c;
      assert s[|s| - |t| + i] == c;
    }
  }

  /** trim leaves a string alone exactly when it has no white space at either end. */
  lemma TrimOfTrimmed(s: string)
    ensures Trim(s) == s <==> Trimmed(s)
  {
    TrimFacts(s);
    if Trimmed(s) {
      TrimEndFacts(s);
    }
  }

  lemma TrimIdempotent(s: string)
    ensures Trim(Trim(s)) == Trim(s)
  {
    TrimFacts(s);
    TrimOfTrimmed(Trim(s));
  }

  /** A leading blank, such as the one after "; ", disappears under trim. */
  lemma TrimLeadingSpace(s: string)
    ensures Trim(" " + s) == Trim(s)
  {
    assert (" " + s)[1..] == s;
  }

  /** `s.split(d)`: never empty. */
  function Split(s: string, d: char): (r: seq<string>)
    ensures |r| >= 1
    decreases |s|
  {
    if s == [] then [[]]
    else
      var rest := Split(s[1..], d);
      if s[0] == d then [[]] + rest
      else [[s[0]] + rest[0]] + rest[1..]
  }

  /** No piece of a split holds the separator. */
  lemma {:induction false} SplitPieces(s: string, d: char)
    ensures forall i :: 0 <= i < |Split(s, d)| ==> d !in Split(s, d)[i]
    decreases |s|
  {
    if s != [] {
      SplitPieces(s[1..], d);
    }
  }

  /** `parts.join(sep)`. */
  function Join(parts: seq<string>, sep: string): string
  {
    if |parts| == 0 then []
    else if |parts| == 1 then parts[0]
    else parts[0] + sep + Join(parts[1..], sep)
  }

  lemma {:induction false} SplitWithoutSeparator(s: string, d: char)
    requires d !in s
    ensures Split(s, d) == [s]
    decreases |s|
  {
    if s != [] {
      SplitWithoutSeparator(s[1..], d);
      assert [s[0]] + s[1..] == s;
    }
  }

  /** One unfolding of `Split` on a non-empty string. */
  lemma SplitCons(c: char, t: string, d: char)
    ensures Split([c] + t, d) ==
      if c == d then [[]] + Split(t, d) else [[c] + Split(t, d)[0]] + Split(t, d)[1..]
  {
    assert ([c] + t)[0] == c && ([c] + t)[1..] == t;
  }

  /** Splitting at a separator splits the two sides independently. */
  lemma {:induction false} SplitAtSeparator(a: string, b: string, d: char)
    ensures Split(a + [d] + b, d) == Split(a, d) + Split(b, d)
    decreases |a|
  {
    if a == [] {
      assert a + [d] + b == [d] + b;
      SplitCons(d, b, d);
    } else {
      var c, t := a[0], a[1..];
      var left, right := Split(t, d), Split(b, d);
      var rest := Split(t + [d] + b, d);
      SplitAtSeparator(t, b, d);
      assert a + [d] + b == [c] + (t + [d] + b) by {
        assert a == [c] + t;
      }
      SplitCons(c, t + [d] + b, d);
      assert a == [c] + t;
      SplitCons(c, t, d);
      if c == d {
        SeqAssocCons([], left, right);
      } else {
        SplitConsOther(c, left, right);
      }
    }
  }

  lemma SeqAssocCons(x: string, left: seq<string>, right: seq<string>)
    ensures [x] + (left + right) == ([x] + left) + right
  {
  }

  lemma SplitConsOther(c: char, left: seq<string>, right: seq<string>)
    requires |left| >= 1
    ensures [[c] + (left + right)[0]] + (left + right)[1..] == ([[c] + left[0]] + left[1..]) + right
  {
    assert (left + right)[0] == left[0];
    assert (left + right)[1..] == left[1..] + right;
  }

  /** A prefix without the separator sticks to the first piece. */
  lemma {:induction false} SplitAfterPrefix(p: string, s: string, d: char)
    requires d !in p
    ensures Split(p + s, d) == [p + Split(s, d)[0]] + Split(s, d)[1..]
    decreases |p|
  {
    if p != [] {
      var t := Split(s, d);
      SplitAfterPrefix(p[1..], s, d);
      assert (p + s)[1..] == p[1..] + s;
      var rest := Split(p[1..] + s, d);
      assert rest == [p[1..] + t[0]] + t[1..];
      assert (p + s)[0] == p[0] != d;
      assert Split(p + s, d) == [[p[0]] + rest[0]] + rest[1..];
      assert [p[0]] + (p[1..] + t[0]) == p + t[0];
    } else {
      var t := Split(s, d);
      assert p + s == s;
      assert p + t[0] == t[0];
      assert t == [t[0]] + t[1..];
    }
  }

  /** The first piece of a split is the text before the first separator. */
  lemma {:induction false} SplitHead(s: string, d: char)
    ensures StartsWith(s, Split(s, d)[0])
    ensures |Split(s, d)[0]| == |s| || s[|Split(s, d)[0]|] == d
    decreases |s|
  {
    if s != [] && s[0] != d {
      SplitHead(s[1..], d);
    }
  }

  /** Every piece but the first, preceded by `pad`. */
  function Padded(pad: string, parts: seq<string>): (r: seq<string>)
    ensures |r| == |parts|
    ensures forall i :: 0 <= i < |parts| ==> r[i] == pad + parts[i]
  {
    seq(|parts|, i requires 0 <= i < |parts| => pad + parts[i])
  }

  /**
    Splitting `parts.join(d + pad)` on `d` gives the parts back, each after the
    first carrying the pad: split undoes join when no part holds the separator.
   */
  lemma {:induction false} SplitJoin(parts: seq<string>, d: char, pad: string)
    requires |parts| >= 1
    requires forall i :: 0 <= i < |parts| ==> d !in parts[i]
    requires d !in pad
    ensures Split(Join(parts, [d] + pad), d) == [parts[0]] + Padded(pad, parts[1..])
    decreases |parts|
  {
    if |parts| == 1 {
      SplitWithoutSeparator(parts[0], d);
    } else {
      var rest := parts[1..];
      var tail := Join(rest, [d] + pad);
      SplitJoin(rest, d, pad);
      SplitPaddedTail(pad, tail, d, rest);
      assert Join(parts, [d] + pad) == parts[0] + [d] + (pad + tail);
      SplitAtSeparator(parts[0], pad + tail, d);
      SplitWithoutSeparator(parts[0], d);
    }
  }

  /** One step of `SplitJoin`: the pad in front of the rest's join lands on its first piece. */
  lemma SplitPaddedTail(pad: string, tail: string, d: char, rest: seq<string>)
    requires d !in pad && |rest| >= 1
    requires Split(tail, d) == [rest[0]] + Padded(pad, rest[1..])
    ensures Split(pad + tail, d) == Padded(pad, rest)
  {
    SplitAfterPrefix(pad, tail, d);
    assert Padded(pad, rest) == [pad + rest[0]] + Padded(pad, rest[1..]);
  }
}
