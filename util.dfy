/** Small shared vocabulary: optional values, duplicate-free sequences,
    order-preserving filters, Python's string order and sort, and Python's
    lexicographic comparison of integer tuples. */
module Util {

  datatype Option<T> = None | Some(value: T)

  /** The outcome of an operation that raises `ValueError` on bad arguments. */
  datatype Result<T> = Ok(value: T) | Failure(error: string)

  /** Index of the first element satisfying `p`, as a `for ... return` loop finds it. */
  function FindFirst<T>(xs: seq<T>, p: T -> bool): (r: Option<nat>)
    ensures r.Some? ==> r.value < |xs| && p(xs[r.value]) && forall j :: 0 <= j < r.value ==> !p(xs[j])
    ensures r.None? <==> forall j :: 0 <= j < |xs| ==> !p(xs[j])
    decreases |xs|
  {
    if xs == [] then None
    else if p(xs[0]) then Some(0)
    else
      var r := FindFirst(xs[1..], p);
      assert forall j :: 1 <= j < |xs| ==> xs[j] == xs[1..][j - 1];
      if r.None? then None else Some(r.value + 1)
  }

  /** The first match in a list one element longer: the old first match if
      there was one, else the new element if it matches. */
  lemma FindFirstSnoc<T>(xs: seq<T>, i: nat, p: T -> bool)
    requires i < |xs|
    ensures FindFirst(xs[..i + 1], p) ==
      if FindFirst(xs[..i], p).Some? then FindFirst(xs[..i], p) else if p(xs[i]) then Some(i) else None
  {
    var a, b := FindFirst(xs[..i], p), FindFirst(xs[..i + 1], p);
    assert forall j :: 0 <= j < i ==> xs[..i][j] == xs[..i + 1][j] == xs[j];
    assert xs[..i + 1][i] == xs[i];
    if a.Some? {
      assert p(xs[..i + 1][a.value]);
      assert b.Some? && b.value == a.value;
    } else if p(xs[i]) {
      assert b.Some? && b.value == i;
    }
  }

  /** The first match is the position that matches after a run of
      positions that do not. */
  lemma FindFirstAt<T>(xs: seq<T>, i: nat, p: T -> bool)
    requires i < |xs| && p(xs[i]) && forall j :: 0 <= j < i ==> !p(xs[j])
    ensures FindFirst(xs, p) == Some(i)
  {
    assert p(xs[i]);
  }

  lemma PrefixOfAppend<T>(a: seq<T>, b: seq<T>)
    ensures a <= a + b
  {
  }

  lemma PrefixTransitive<T>(a: seq<T>, b: seq<T>, c: seq<T>)
    requires a <= b && b <= c
    ensures a <= c
  {
  }

  /** The elements of a list as a set (`set(xs)`, `frozenset(xs)`). */
  function Members<T(!new)>(xs: seq<T>): (r: set<T>)
    ensures forall x :: x in r <==> x in xs
  {
    set x | x in xs
  }

  /** The prefix one longer is the prefix and the next element. */
  lemma SliceSnoc<T>(s: seq<T>, i: nat)
    requires i < |s|
    ensures s[..i + 1] == s[..i] + [s[i]]
  {
  }

  lemma MembersAppend<T(!new)>(xs: seq<T>, x: T)
    ensures Members(xs + [x]) == Members(xs) + {x}
  {
  }

  lemma SameMembers<T(!new)>(a: seq<T>, b: seq<T>)
    requires forall x :: x in a <==> x in b
    ensures Members(a) == Members(b)
  {
  }

  /** Python truthiness of an `Optional[str]`: neither None nor "". */
  predicate Truthy(o: Option<string>) {
    o.Some? && o.value != ""
  }

  predicate Distinct<T(==)>(xs: seq<T>) {
    forall i, j :: 0 <= i < j < |xs| ==> xs[i] != xs[j]
  }

  lemma DistinctTail<T>(xs: seq<T>)
    requires Distinct(xs) && xs != []
    ensures Distinct(xs[1..]) && xs[0] !in xs[1..]
  {
  }

  /** `[x for x in xs if keep(x)]` */
  function Filter<T(==,!new)>(xs: seq<T>, keep: T -> bool): (r: seq<T>)
    ensures |r| <= |xs|
    ensures forall x :: x in r <==> x in xs && keep(x)
    ensures Distinct(xs) ==> Distinct(r)
  {
    if xs == [] then []
    else
      var rest := Filter(xs[1..], keep);
      assert forall x :: x in xs[1..] ==> x in xs;
      if keep(xs[0]) then
        assert Distinct(xs) ==> xs[0] !in xs[1..];
        [xs[0]] + rest
      else rest
  }

  /** Nothing is kept when no element passes. */
  lemma {:induction false} FilterNone<T(!new)>(xs: seq<T>, keep: T -> bool)
    requires forall x :: x in xs ==> !keep(x)
    ensures Filter(xs, keep) == []
  {
    if xs != [] {
      assert forall x :: x in xs[1..] ==> x in xs;
      FilterNone(xs[1..], keep);
    }
  }

  lemma {:induction false} FilterAppend<T(!new)>(xs: seq<T>, x: T, keep: T -> bool)
    ensures Filter(xs + [x], keep) == Filter(xs, keep) + (if keep(x) then [x] else [])
  {
    if xs == [] {
      assert xs + [x] == [x];
    } else {
      assert (xs + [x])[1..] == xs[1..] + [x];
      FilterAppend(xs[1..], x, keep);
    }
  }

  /** `FilterAppend` for the prefixes a loop walks through. */
  lemma FilterSnoc<T(!new)>(xs: seq<T>, i: nat, keep: T -> bool)
    requires i < |xs|
    ensures Filter(xs[..i + 1], keep) == Filter(xs[..i], keep) + (if keep(xs[i]) then [xs[i]] else [])
  {
    assert xs[..i + 1] == xs[..i] + [xs[i]];
    FilterAppend(xs[..i], xs[i], keep);
  }

  /** The defined results of `f` over `xs`, in order (a list built by a loop
      that appends `f(x)` when it is defined). */
  function FilterMap<A, B(!new)>(xs: seq<A>, f: A -> Option<B>): (r: seq<B>)
    ensures |r| <= |xs|
    ensures forall i :: 0 <= i < |xs| && f(xs[i]).Some? ==> f(xs[i]).value in r
    ensures forall y :: y in r ==> exists i :: 0 <= i < |xs| && f(xs[i]) == Some(y)
    decreases |xs|
  {
    if xs == [] then []
    else
      var init := xs[..|xs| - 1];
      var rest := FilterMap(init, f);
      assert forall i :: 0 <= i < |init| ==> init[i] == xs[i];
      match f(xs[|xs| - 1])
      case Some(y) => rest + [y]
      case None => rest
  }

  /** `FilterMap` of a prefix one element longer. */
  lemma FilterMapSnoc<A, B(!new)>(xs: seq<A>, i: nat, f: A -> Option<B>)
    requires i < |xs|
    ensures FilterMap(xs[..i + 1], f) ==
      FilterMap(xs[..i], f) + (if f(xs[i]).Some? then [f(xs[i]).value] else [])
  {
    assert xs[..i + 1][..i] == xs[..i];
  }

  /** The set of the defined results of `f` over `xs`. */
  function SetOfDefined<A, B(!new)>(xs: seq<A>, f: A -> Option<B>): (r: set<B>)
    ensures forall y :: y in r <==> exists i :: 0 <= i < |xs| && f(xs[i]) == Some(y)
    ensures r == {} <==> forall i :: 0 <= i < |xs| ==> f(xs[i]).None?
    decreases |xs|
  {
    if xs == [] then {}
    else
      var rest := SetOfDefined(xs[1..], f);
      assert forall i :: 1 <= i < |xs| ==> xs[i] == xs[1..][i - 1];
      (if f(xs[0]).Some? then {f(xs[0]).value} else {}) + rest
  }

  /** Every defined result satisfying `ok` puts the whole set within `ok`. */
  lemma SetOfDefinedWithin<A, B(!new)>(xs: seq<A>, f: A -> Option<B>, ok: B -> bool)
    requires forall i :: 0 <= i < |xs| && f(xs[i]).Some? ==> ok(f(xs[i]).value)
    ensures forall y :: y in SetOfDefined(xs, f) ==> ok(y)
  {
  }

  /** The defined results of `f` over `xs`, or `dflt` when there are none. */
  function DefinedOr<A, B(!new)>(xs: seq<A>, f: A -> Option<B>, dflt: set<B>): (r: set<B>)
    ensures (forall i :: 0 <= i < |xs| ==> f(xs[i]).None?) ==> r == dflt
    ensures (exists i :: 0 <= i < |xs| && f(xs[i]).Some?) ==>
      forall y :: y in r <==> exists i :: 0 <= i < |xs| && f(xs[i]) == Some(y)
  {
    var d := SetOfDefined(xs, f);
    if d == {} then dflt else d
  }

  lemma DefinedOrWithin<A, B(!new)>(xs: seq<A>, f: A -> Option<B>, dflt: set<B>, ok: B -> bool)
    requires forall i :: 0 <= i < |xs| && f(xs[i]).Some? ==> ok(f(xs[i]).value)
    requires dflt != {} && forall y :: y in dflt ==> ok(y)
    ensures DefinedOr(xs, f, dflt) != {}
    ensures forall y :: y in DefinedOr(xs, f, dflt) ==> ok(y)
  {
    SetOfDefinedWithin(xs, f, ok);
  }

  /** When every element has a defined result, the defined results are exactly those. */
  lemma SetOfDefinedExact<A, B(!new)>(xs: seq<A>, f: A -> Option<B>, ys: seq<B>)
    requires |xs| == |ys| && forall i :: 0 <= i < |xs| ==> f(xs[i]) == Some(ys[i])
    ensures SetOfDefined(xs, f) == set i | 0 <= i < |ys| :: ys[i]
  {
    var want := set i | 0 <= i < |ys| :: ys[i];
    forall y ensures y in SetOfDefined(xs, f) <==> y in want {
      if y in want {
        var i :| 0 <= i < |ys| && ys[i] == y;
        assert f(xs[i]) == Some(y);
      }
    }
  }

  /** A property of every element survives putting one more element in front. */
  lemma AllCons<T>(x: T, xs: seq<T>, p: T -> bool)
    requires p(x) && forall i :: 0 <= i < |xs| ==> p(xs[i])
    ensures forall i :: 0 <= i < |[x] + xs| ==> p(([x] + xs)[i])
  {
    forall i | 0 <= i < |[x] + xs| ensures p(([x] + xs)[i]) {
      if i > 0 {
        assert ([x] + xs)[i] == xs[i - 1];
      }
    }
  }

  /** Sum of a weight over a sequence (Python's `sum(w(x) for x in xs)`). */
  function SumOf<T>(xs: seq<T>, w: T -> int): int {
    if xs == [] then 0 else w(xs[0]) + SumOf(xs[1..], w)
  }

  /** Number of elements satisfying a predicate (`sum(1 for x in xs if p(x))`). */
  function CountOf<T(==,!new)>(xs: seq<T>, p: T -> bool): (r: nat)
    ensures r <= |xs|
    ensures r == 0 <==> forall x :: x in xs ==> !p(x)
  {
    if xs == [] then 0
    else
      assert forall x :: x in xs[1..] ==> x in xs;
      (if p(xs[0]) then 1 else 0) + CountOf(xs[1..], p)
  }

  // ---------------------------------------------------------------------------
  // Python's string order: lexicographic by code point, a proper prefix first.

  predicate StrLt(a: string, b: string) {
    if a == [] then b != []
    else if b == [] then false
    else if a[0] != b[0] then a[0] < b[0]
    else StrLt(a[1..], b[1..])
  }

  predicate StrLe(a: string, b: string) {
    a == b || StrLt(a, b)
  }

  lemma {:induction false} StrLtIrreflexive(a: string)
    ensures !StrLt(a, a)
  {
    if a != [] { StrLtIrreflexive(a[1..]); }
  }

  lemma {:induction false} StrLtTotal(a: string, b: string)
    ensures a == b || StrLt(a, b) || StrLt(b, a)
  {
    if a != [] && b != [] && a[0] == b[0] {
      StrLtTotal(a[1..], b[1..]);
      if a[1..] == b[1..] {
        assert a == [a[0]] + a[1..] && b == [b[0]] + b[1..];
      }
    }
  }

  lemma {:induction false} StrLtTransitive(a: string, b: string, c: string)
    requires StrLt(a, b) && StrLt(b, c)
    ensures StrLt(a, c)
  {
    if a != [] && b != [] && c != [] && a[0] == b[0] && b[0] == c[0] {
      StrLtTransitive(a[1..], b[1..], c[1..]);
    }
  }

  lemma {:induction false} StrLtAsymmetric(a: string, b: string)
    requires StrLt(a, b)
    ensures !StrLt(b, a)
  {
    if a != [] && b != [] && a[0] == b[0] {
      StrLtAsymmetric(a[1..], b[1..]);
    }
  }

  predicate SortedStrings(xs: seq<string>) {
    forall i, j :: 0 <= i < j < |xs| ==> StrLe(xs[i], xs[j])
  }

  function InsertSorted(x: string, xs: seq<string>): (r: seq<string>)
    requires SortedStrings(xs)
    ensures SortedStrings(r)
    ensures multiset(r) == multiset(xs) + multiset{x}
  {
    if xs == [] then [x]
    else if StrLe(x, xs[0]) then
      assert forall j :: 0 < j < |xs| ==> StrLe(xs[0], xs[j]);
      InsertSortedHead(x, xs);
      [x] + xs
    else
      var rest := InsertSorted(x, xs[1..]);
      assert xs == [xs[0]] + xs[1..];
      InsertSortedTail(x, xs, rest);
      [xs[0]] + rest
  }

  lemma InsertSortedHead(x: string, xs: seq<string>)
    requires SortedStrings(xs) && xs != [] && StrLe(x, xs[0])
    ensures SortedStrings([x] + xs)
  {
    forall j | 0 <= j < |xs| ensures StrLe(x, xs[j]) {
      if j > 0 && x != xs[0] && xs[0] != xs[j] { StrLtTransitive(x, xs[0], xs[j]); }
    }
  }

  lemma InsertSortedTail(x: string, xs: seq<string>, rest: seq<string>)
    requires SortedStrings(xs) && xs != [] && !StrLe(x, xs[0])
    requires SortedStrings(rest)
    requires multiset(rest) == multiset(xs[1..]) + multiset{x}
    ensures SortedStrings([xs[0]] + rest)
  {
    StrLtTotal(x, xs[0]);
    forall j | 0 <= j < |rest| ensures StrLe(xs[0], rest[j]) {
      assert rest[j] in multiset(rest);
      if rest[j] != x {
        assert rest[j] in multiset(xs[1..]);
        var k :| 0 <= k < |xs[1..]| && xs[1..][k] == rest[j];
        assert xs[k + 1] == rest[j];
      }
    }
  }

  /** Python's `sorted(names)`: the names in ascending code-point order. */
  function SortStrings(xs: seq<string>): (r: seq<string>)
    ensures SortedStrings(r)
    ensures multiset(r) == multiset(xs)
  {
    if xs == [] then []
    else
      assert xs == [xs[0]] + xs[1..];
      InsertSorted(xs[0], SortStrings(xs[1..]))
  }

  /** Sorting keeps the set of names. */
  lemma SortKeepsElements(xs: seq<string>)
    ensures forall n :: n in SortStrings(xs) <==> n in xs
  {
    var r := SortStrings(xs);
    forall n ensures n in r <==> n in xs {
      assert n in r <==> n in multiset(r);
      assert n in xs <==> n in multiset(xs);
    }
  }

  lemma SortPreservesDistinct(xs: seq<string>)
    requires Distinct(xs)
    ensures Distinct(SortStrings(xs))
  {
    var r := SortStrings(xs);
    forall x ensures multiset(r)[x] <= 1 { DistinctMultiplicity(xs, x); }
    MultiplicityDistinct(r);
  }

  lemma {:induction false} MultiplicityDistinct<T>(xs: seq<T>)
    requires forall x :: multiset(xs)[x] <= 1
    ensures Distinct(xs)
  {
    if xs != [] {
      assert xs == [xs[0]] + xs[1..];
      assert multiset(xs) == multiset{xs[0]} + multiset(xs[1..]);
      forall x ensures multiset(xs[1..])[x] <= 1 {
        assert multiset(xs)[x] == multiset{xs[0]}[x] + multiset(xs[1..])[x];
      }
      MultiplicityDistinct(xs[1..]);
      assert multiset(xs)[xs[0]] == 1 + multiset(xs[1..])[xs[0]];
      forall j | 0 < j < |xs| ensures xs[0] != xs[j] {
        assert xs[j] == xs[1..][j - 1];
        assert xs[j] in multiset(xs[1..]);
      }
    }
  }

  lemma {:induction false} DistinctMultiplicity<T>(xs: seq<T>, x: T)
    requires Distinct(xs)
    ensures multiset(xs)[x] <= 1
  {
    if xs != [] {
      assert xs == [xs[0]] + xs[1..];
      DistinctMultiplicity(xs[1..], x);
      if xs[0] == x { assert x !in xs[1..]; }
    }
  }

  // ---------------------------------------------------------------------------
  // Lexicographic order of integer tuples, as Python compares `tuple`s of ints.

  predicate LexLe(a: seq<int>, b: seq<int>)
    requires |a| == |b|
  {
    |a| == 0 || a[0] < b[0] || (a[0] == b[0] && LexLe(a[1..], b[1..]))
  }

  lemma {:induction false} LexLeTotal(a: seq<int>, b: seq<int>)
    requires |a| == |b|
    ensures LexLe(a, b) || LexLe(b, a)
  {
    if |a| > 0 && a[0] == b[0] { LexLeTotal(a[1..], b[1..]); }
  }

  lemma {:induction false} LexLeTransitive(a: seq<int>, b: seq<int>, c: seq<int>)
    requires |a| == |b| == |c|
    requires LexLe(a, b) && LexLe(b, c)
    ensures LexLe(a, c)
  {
    if |a| > 0 && a[0] == b[0] && b[0] == c[0] { LexLeTransitive(a[1..], b[1..], c[1..]); }
  }

  /** Every non-empty list has an element whose key is minimal: the element that
      a sort on that key puts first. */
  lemma {:induction false} MinimalExists<T>(xs: seq<T>, key: T -> seq<int>, n: nat) returns (m: T)
    requires |xs| > 0
    requires forall x :: x in xs ==> |key(x)| == n
    ensures m in xs && forall y :: y in xs ==> LexLe(key(m), key(y))
  {
    assert xs == [xs[0]] + xs[1..];
    if |xs| == 1 {
      m := xs[0];
      LexLeTotal(key(m), key(m));
    } else {
      assert forall y :: y in xs[1..] ==> y in xs;
      var rest := MinimalExists(xs[1..], key, n);
      LexLeTotal(key(xs[0]), key(rest));
      if LexLe(key(xs[0]), key(rest)) {
        m := xs[0];
        forall y | y in xs[1..] ensures LexLe(key(m), key(y)) {
          LexLeTransitive(key(m), key(rest), key(y));
        }
        LexLeTotal(key(m), key(m));
      } else {
        m := rest;
      }
    }
  }
}
