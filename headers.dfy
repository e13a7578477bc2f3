/**
  A request's headers as the rewriter sees them: a JavaScript object, that is
  an insertion-ordered list of distinct property names, each with a value the
  host supplied (a string, an array of strings for a repeated HTTP/2 header,
  or something else). Assigning to a property keeps an existing name in its
  place and appends a new one; deleting removes it.
 */
module Headers {
  import opened Wrappers
  import opened Text

  /** One element of an array-valued header. */
  datatype Item = ItemStr(s: string) | ItemOther

  /** A header value; `Other` is any non-string, non-array value, with its truthiness. */
  datatype HeaderValue = Str(s: string) | Arr(items: seq<Item>) | Other(truthy: bool)

  type Header = (string, HeaderValue)
  type Headers = seq<Header>

  /** JavaScript truthiness of a header value: only "" and falsy non-strings are false. */
  predicate Truthy(v: HeaderValue)
  {
    match v
    case Str(s) => s != ""
    case Arr(_) => true
    case Other(t) => t
  }

  /** `headers[name]`: None stands for `undefined`. */
  function Get(h: Headers, name: string): (r: Option<HeaderValue>)
  {
    if h == [] then None
    else if h[0].0 == name then Some(h[0].1)
    else Get(h[1..], name)
  }

  /** A lookup finds nothing exactly when no entry carries the name. */
  lemma {:induction false} GetAbsent(h: Headers, name: string)
    ensures Get(h, name).None? <==> forall i :: 0 <= i < |h| ==> h[i].0 != name
    decreases |h|
  {
    if h != [] {
      GetAbsent(h[1..], name);
      assert forall i :: 1 <= i < |h| ==> h[i] == h[1..][i - 1];
    }
  }

  function Names(h: Headers): seq<string>
  {
    seq(|h|, i requires 0 <= i < |h| => h[i].0)
  }

  /** A JavaScript object never holds the same property name twice. */
  predicate UniqueNames(h: Headers)
  {
    forall i, j :: 0 <= i < j < |h| ==> h[i].0 != h[j].0
  }

  /** Both header lists answer every lookup alike: the same object up to key order. */
  ghost predicate SameMapping(a: Headers, b: Headers)
  {
    forall n :: Get(a, n) == Get(b, n)
  }

  /** `headers[name] = v`: the name reads as `v` afterwards, every other name as before. */
  function Put(h: Headers, name: string, v: HeaderValue): (r: Headers)
    ensures Get(r, name) == Some(v)
    ensures forall n :: n != name ==> Get(r, n) == Get(h, n)
  {
    if h == [] then [(name, v)]
    else if h[0].0 == name then [(name, v)] + h[1..]
    else
      var rest := Put(h[1..], name, v);
      assert ([h[0]] + rest)[1..] == rest;
      [h[0]] + rest
  }

  /** An existing name keeps its place; a new one goes last. */
  lemma {:induction false} PutPlacement(h: Headers, name: string, v: HeaderValue)
    ensures Get(h, name).None? ==> Put(h, name, v) == h + [(name, v)]
    ensures Get(h, name).Some? ==> Names(Put(h, name, v)) == Names(h)
    decreases |h|
  {
    if h != [] {
      var r := Put(h, name, v);
      if h[0].0 == name {
        assert Names([(name, v)] + h[1..]) == Names(h);
      } else {
        PutPlacement(h[1..], name, v);
        assert r == [h[0]] + Put(h[1..], name, v);
        assert h == [h[0]] + h[1..];
        assert Get(h, name).Some? ==> Names(r) == [h[0].0] + Names(h[1..]) == Names(h);
      }
    }
  }

  lemma PutUnique(h: Headers, name: string, v: HeaderValue)
    requires UniqueNames(h)
    ensures UniqueNames(Put(h, name, v))
  {
    var r := Put(h, name, v);
    PutPlacement(h, name, v);
    if Get(h, name).Some? {
      forall i, j | 0 <= i < j < |r| ensures r[i].0 != r[j].0 {
        assert r[i].0 == Names(r)[i] == Names(h)[i];
        assert r[j].0 == Names(r)[j] == Names(h)[j];
      }
    }
  }

  /** Assigns the given headers one after another: the last assignment is the outermost `Put`. */
  function PutAll(h: Headers, assignments: seq<Header>): Headers
    decreases |assignments|
  {
    if assignments == [] then h
    else
      var last := assignments[|assignments| - 1];
      Put(PutAll(h, assignments[..|assignments| - 1]), last.0, last.1)
  }

  /** The value the last of the assignments gives `name`, if any does. */
  function LastAssigned(assignments: seq<Header>, name: string): Option<HeaderValue>
    decreases |assignments|
  {
    if assignments == [] then None
    else if assignments[|assignments| - 1].0 == name then Some(assignments[|assignments| - 1].1)
    else LastAssigned(assignments[..|assignments| - 1], name)
  }

  /** After a run of assignments, a name reads as the last value assigned to it, or as before. */
  lemma {:induction false} GetPutAll(h: Headers, assignments: seq<Header>, name: string)
    ensures Get(PutAll(h, assignments), name) ==
      if LastAssigned(assignments, name).Some? then LastAssigned(assignments, name) else Get(h, name)
    decreases |assignments|
  {
    if assignments != [] {
      GetPutAll(h, assignments[..|assignments| - 1], name);
    }
  }

  /** With distinct names, the value assigned to a name is the one at its only position. */
  lemma {:induction false} LastAssignedAt(assignments: seq<Header>, i: nat)
    requires UniqueNames(assignments) && i < |assignments|
    ensures LastAssigned(assignments, assignments[i].0) == Some(assignments[i].1)
    decreases |assignments|
  {
    var a := assignments;
    var front := a[..|a| - 1];
    if i < |a| - 1 {
      assert a[|a| - 1].0 != a[i].0;
      assert UniqueNames(front) by {
        forall j, k | 0 <= j < k < |front| ensures front[j].0 != front[k].0 {
          assert front[j] == a[j] && front[k] == a[k];
        }
      }
      assert front[i] == a[i];
      LastAssignedAt(front, i);
    }
  }

  /** A name no assignment carries is assigned nothing. */
  lemma {:induction false} LastAssignedAbsent(assignments: seq<Header>, name: string)
    ensures (forall j :: 0 <= j < |assignments| ==> assignments[j].0 != name) ==> LastAssigned(assignments, name).None?
    decreases |assignments|
  {
    var a := assignments;
    if a != [] {
      LastAssignedAbsent(a[..|a| - 1], name);
      if forall j :: 0 <= j < |a| ==> a[j].0 != name {
        assert a[|a| - 1].0 != name;
        assert forall j :: 0 <= j < |a| - 1 ==> a[..|a| - 1][j] == a[j];
      }
    }
  }

  /** Extending a run of assignments by its next one, as a step of straight-line code does. */
  lemma PutAllPrefixStep(h0: Headers, assignments: seq<Header>, k: nat, h: Headers)
    requires k < |assignments| && h == PutAll(h0, assignments[..k])
    ensures Put(h, assignments[k].0, assignments[k].1) == PutAll(h0, assignments[..k + 1])
  {
    assert assignments[..k + 1][..k] == assignments[..k];
  }

  /** A straight run of `Put`s, one per assignment, computes `PutAll`. */
  lemma {:induction false} PutAllOfSteps(h: Headers, assignments: seq<Header>, steps: seq<Headers>)
    requires |steps| == |assignments| + 1 && steps[0] == h
    requires forall k :: 0 <= k < |assignments| ==>
      steps[k + 1] == Put(steps[k], assignments[k].0, assignments[k].1)
    ensures steps[|assignments|] == PutAll(h, assignments)
    decreases |assignments|
  {
    var a := assignments;
    if a != [] {
      var front := a[..|a| - 1];
      forall k | 0 <= k < |front| ensures steps[..|a|][k + 1] == Put(steps[..|a|][k], front[k].0, front[k].1) {
        assert front[k] == a[k];
      }
      PutAllOfSteps(h, front, steps[..|a|]);
    }
  }

  /** Two runs of assignments one after the other are one run. */
  lemma {:induction false} PutAllAppend(h: Headers, a: seq<Header>, b: seq<Header>)
    ensures PutAll(h, a + b) == PutAll(PutAll(h, a), b)
    decreases |b|
  {
    if b != [] {
      assert (a + b)[..|a + b| - 1] == a + b[..|b| - 1];
      PutAllAppend(h, a, b[..|b| - 1]);
    } else {
      assert a + b == a;
    }
  }

  lemma {:induction false} PutAllUnique(h: Headers, assignments: seq<Header>)
    requires UniqueNames(h)
    ensures UniqueNames(PutAll(h, assignments))
    decreases |assignments|
  {
    var a := assignments;
    if a != [] {
      PutAllUnique(h, a[..|a| - 1]);
      PutUnique(PutAll(h, a[..|a| - 1]), a[|a| - 1].0, a[|a| - 1].1);
    }
  }

  /** Assignments read only through lookups, so they respect `SameMapping`. */
  lemma PutAllSameMapping(a: Headers, b: Headers, assignments: seq<Header>)
    requires SameMapping(a, b)
    ensures SameMapping(PutAll(a, assignments), PutAll(b, assignments))
  {
    forall n ensures Get(PutAll(a, assignments), n) == Get(PutAll(b, assignments), n) {
      GetPutAll(a, assignments, n);
      GetPutAll(b, assignments, n);
    }
  }

  /** The names the code compares case-insensitively with "cookie". */
  predicate IsCookieName(name: string)
  {
    Lower(name) == "cookie"
  }

  /** Every cookie-named property deleted; the others keep their order. */
  function WithoutCookies(h: Headers): (r: Headers)
    ensures forall n :: Get(r, n) == if IsCookieName(n) then None else Get(h, n)
  {
    if h == [] then []
    else
      var rest := WithoutCookies(h[1..]);
      if IsCookieName(h[0].0) then rest
      else
        var r := [h[0]] + rest;
        assert r[1..] == rest;
        r
  }

  /** What is left holds no cookie name, only entries of the original, and no name twice. */
  lemma {:induction false} WithoutCookiesShape(h: Headers)
    ensures forall i :: 0 <= i < |WithoutCookies(h)| ==> !IsCookieName(WithoutCookies(h)[i].0)
    ensures forall i :: 0 <= i < |WithoutCookies(h)| ==> WithoutCookies(h)[i] in h
    ensures UniqueNames(h) ==> UniqueNames(WithoutCookies(h))
    decreases |h|
  {
    if h != [] {
      WithoutCookiesShape(h[1..]);
      var rest := WithoutCookies(h[1..]);
      if !IsCookieName(h[0].0) {
        var r := [h[0]] + rest;
        assert forall i :: 1 <= i < |r| ==> r[i] == rest[i - 1];
        if UniqueNames(h) {
          assert UniqueNames(h[1..]);
          forall i, j | 0 <= i < j < |r| ensures r[i].0 != r[j].0 {
            if i == 0 {
              assert r[j] in h[1..];
              var k :| 0 <= k < |h[1..]| && h[1..][k] == r[j];
              assert h[k + 1] == r[j];
            }
          }
        }
      }
    }
  }
}
