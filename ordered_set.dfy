/**
 * A JavaScript `Set<string>` seen as what it is observably: a sequence of
 * distinct strings in insertion order. `Array.from(set)` gives that sequence,
 * `set.size` its length, `set.has` membership; `add`, `delete` and
 * `new Set(iterable)` are the functions `Add`, `Delete` and `FromList` below.
 */
module OrderedSet {

  /** No string occurs twice. */
  predicate Distinct(s: seq<string>) {
    forall i, j :: 0 <= i < j < |s| ==> s[i] != s[j]
  }

  /** The members of `s`, forgetting order. */
  function Elements(s: seq<string>): set<string> {
    set x | x in s
  }

  /** `a` can be obtained from `b` by dropping elements: `a` keeps `b`'s order. */
  predicate IsSubsequence(a: seq<string>, b: seq<string>)
    decreases |b|
  {
    if a == [] then true
    else if b == [] then false
    else if a[0] == b[0] then IsSubsequence(a[1..], b[1..])
    else IsSubsequence(a, b[1..])
  }

  /** `set.add(x)`: appends `x` unless it is already a member. */
  function Add(s: seq<string>, x: string): (r: seq<string>)
    ensures Elements(r) == Elements(s) + {x}
    ensures Distinct(s) ==> Distinct(r)
    ensures x !in s ==> |r| == |s| + 1 && r[|s|] == x && r[..|s|] == s
    ensures x in s ==> r == s
  {
    if x in s then s else s + [x]
  }

  /** `set.delete(x)`: removes `x`, keeping the others in their order. */
  function Delete(s: seq<string>, x: string): (r: seq<string>)
    ensures Elements(r) == Elements(s) - {x}
    ensures Distinct(s) ==> Distinct(r)
    ensures IsSubsequence(r, s)
    ensures Distinct(s) && x in s ==> |r| == |s| - 1
    ensures x !in s ==> r == s
  {
    if s == [] then []
    else
      var rest := Delete(s[1..], x);
      ConsFacts(s[0], s[1..]);
      ConsFacts(s[0], rest);
      assert s == [s[0]] + s[1..];
      if s[0] == x then rest else [s[0]] + rest
  }

  /** `new Set(xs)`: adds the strings of `xs` one after another. */
  function FromList(xs: seq<string>): (r: seq<string>)
    ensures Distinct(r)
    ensures Elements(r) == Elements(xs)
    ensures |r| <= |xs|
    ensures Distinct(xs) ==> r == xs
  {
    if xs == [] then []
    else
      var init := xs[..|xs| - 1];
      assert xs == init + [xs[|xs| - 1]];
      Add(FromList(init), xs[|xs| - 1])
  }

  /** Membership and distinctness of a sequence split into its head and tail. */
  lemma ConsFacts(h: string, t: seq<string>)
    ensures Elements([h] + t) == {h} + Elements(t)
    ensures Distinct([h] + t) <==> h !in t && Distinct(t)
  {
    var s := [h] + t;
    assert forall i :: 0 <= i < |t| ==> s[i + 1] == t[i];
    if h in t {
      var k :| 0 <= k < |t| && t[k] == h;
      assert s[0] == s[k + 1];
    }
  }

  /** A sequence without repetitions has as many members as it has entries. */
  lemma {:induction false} DistinctCard(s: seq<string>)
    requires Distinct(s)
    ensures |Elements(s)| == |s|
  {
    if s != [] {
      assert s == [s[0]] + s[1..];
      ConsFacts(s[0], s[1..]);
      DistinctCard(s[1..]);
    }
  }

  /** A subset is no larger. */
  lemma SubsetCard(a: set<string>, b: set<string>)
    ensures a <= b ==> |a| <= |b|
  {
    if a <= b {
      assert b == a + (b - a);
    }
  }

  /** A proper subset is strictly smaller. */
  lemma ProperSubsetCard(a: set<string>, b: set<string>)
    requires a <= b && a != b
    ensures |a| < |b|
  {
    var x :| x in b && x !in a;
    assert b == a + (b - a);
    assert x in b - a;
    assert |b - a| >= 1 by {
      assert {x} <= b - a;
    }
  }
}
