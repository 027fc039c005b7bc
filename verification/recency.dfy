/** Newest-first lists without repetition, and why cutting them short early is harmless. */
module Recency {

  function Without<T(==)>(s: seq<T>, x: T): seq<T> {
    if s == [] then [] else (if s[0] == x then [] else [s[0]]) + Without(s[1..], x)
  }

  /** Of a newest-first history, every element once, at its latest place. */
  function Newest<T(==)>(history: seq<T>): seq<T> {
    if history == [] then [] else [history[0]] + Without(Newest(history[1..]), history[0])
  }

  function Take<T>(n: nat, s: seq<T>): seq<T> {
    if |s| <= n then s else s[..n]
  }

  ghost predicate Distinct<T>(s: seq<T>) {
    forall i, j :: 0 <= i < j < |s| ==> s[i] != s[j]
  }

  lemma {:induction false} WithoutMembers<T>(s: seq<T>, x: T)
    ensures forall y :: y in Without(s, x) <==> y in s && y != x
    ensures |Without(s, x)| <= |s|
    ensures x !in s ==> Without(s, x) == s
  {
    if s != [] {
      WithoutMembers(s[1..], x);
      assert s == [s[0]] + s[1..];
    }
  }

  lemma {:induction false} WithoutDistinct<T>(s: seq<T>, x: T)
    requires Distinct(s)
    ensures Distinct(Without(s, x))
  {
    if s != [] {
      WithoutDistinct(s[1..], x);
      WithoutMembers(s[1..], x);
      assert s[0] !in s[1..] && s[0] !in Without(s[1..], x);
    }
  }

  lemma {:induction false} NewestIsDistinct<T>(s: seq<T>)
    ensures Distinct(Newest(s))
    ensures forall y :: y in Newest(s) <==> y in s
  {
    if s != [] {
      NewestIsDistinct(s[1..]);
      WithoutDistinct(Newest(s[1..]), s[0]);
      WithoutMembers(Newest(s[1..]), s[0]);
      assert s == [s[0]] + s[1..];
    }
  }

  lemma {:induction false} NewestOfDistinct<T>(s: seq<T>)
    requires Distinct(s)
    ensures Newest(s) == s
  {
    if s != [] {
      NewestOfDistinct(s[1..]);
      assert s[0] !in s[1..];
      WithoutMembers(s[1..], s[0]);
    }
  }

  /** Cutting a list short before moving an element to its front shows only beyond the cut. */
  lemma {:induction false} CutBeforeMove<T>(n: nat, s: seq<T>, x: T)
    requires Distinct(s)
    ensures Take(n, Without(Take(n + 1, s), x)) == Take(n, Without(s, x))
  {
    if s == [] {
    } else if s[0] == x {
      assert x !in s[1..];
      WithoutMembers(s[1..], x);
      assert Take(n + 1, s) == [x] + Take(n, s[1..]);
      assert x !in Take(n, s[1..]);
      WithoutMembers(Take(n, s[1..]), x);
      assert (([x] + Take(n, s[1..]))[1..]) == Take(n, s[1..]);
    } else if n == 0 {
      assert Take(0, Without(s, x)) == [];
    } else {
      CutBeforeMove(n - 1, s[1..], x);
      assert Take(n + 1, s) == [s[0]] + Take(n, s[1..]);
      assert Without(Take(n + 1, s), x) == [s[0]] + Without(Take(n, s[1..]), x);
      TakeCons(n, s[0], Without(Take(n, s[1..]), x));
      TakeCons(n, s[0], Without(s[1..], x));
    }
  }

  lemma TakeCons<T>(n: nat, x: T, s: seq<T>)
    requires n > 0
    ensures Take(n, [x] + s) == [x] + Take(n - 1, s)
  {
  }

  lemma SamePrefixSameMove<T>(n: nat, s: seq<T>, t: seq<T>, x: T)
    requires Distinct(s) && Distinct(t) && Take(n, s) == Take(n, t)
    ensures Take(n, [x] + Without(s, x)) == Take(n, [x] + Without(t, x))
  {
    if n == 0 {
      assert Take(0, [x] + Without(s, x)) == [] == Take(0, [x] + Without(t, x));
    } else {
      CutBeforeMove(n - 1, s, x);
      CutBeforeMove(n - 1, t, x);
      TakeCons(n, x, Without(s, x));
      TakeCons(n, x, Without(t, x));
    }
  }

  /** Truncating early commutes with removing duplicates: only the newest `n` of the older part can matter. */
  lemma {:induction false} TruncationCommutes<T>(n: nat, newer: seq<T>, older: seq<T>)
    ensures Take(n, Newest(newer + Take(n, Newest(older)))) == Take(n, Newest(newer + older))
  {
    var kept := Take(n, Newest(older));
    if newer == [] {
      NewestIsDistinct(older);
      NewestOfDistinct(kept);
      assert newer + kept == kept && newer + older == older;
    } else {
      TruncationCommutes(n, newer[1..], older);
      assert (newer + kept)[1..] == newer[1..] + kept && (newer + older)[1..] == newer[1..] + older;
      NewestIsDistinct(newer[1..] + kept);
      NewestIsDistinct(newer[1..] + older);
      SamePrefixSameMove(n, Newest(newer[1..] + kept), Newest(newer[1..] + older), newer[0]);
    }
  }

  lemma {:induction false} WithoutConcat<T>(s: seq<T>, t: seq<T>, x: T)
    ensures Without(s + t, x) == Without(s, x) + Without(t, x)
  {
    if s == [] {
      assert s + t == t;
    } else {
      WithoutConcat(s[1..], t, x);
      assert (s + t)[1..] == s[1..] + t && (s + t)[0] == s[0];
      var head, p, q := if s[0] == x then [] else [s[0]], Without(s[1..], x), Without(t, x);
      assert head + (p + q) == (head + p) + q;
    }
  }

  /** Read from the newest on, a further, older element counts only if it has not been seen. */
  lemma {:induction false} NewestSnoc<T>(s: seq<T>, x: T)
    ensures Newest(s + [x]) == Newest(s) + if x in s then [] else [x]
  {
    if s == [] {
    } else {
      NewestSnoc(s[1..], x);
      assert (s + [x])[1..] == s[1..] + [x];
      assert x in s <==> x == s[0] || x in s[1..];
      SnocThenMove(Newest(s[1..]), x, s[0], x in s[1..]);
    }
  }

  lemma SnocThenMove<T>(d: seq<T>, x: T, first: T, known: bool)
    ensures [first] + Without(d + if known then [] else [x], first)
         == [first] + Without(d, first) + if known || x == first then [] else [x]
  {
    assert d + [] == d && Without(d, first) + [] == Without(d, first);
    WithoutConcat(d, [x], first);
  }

  lemma TakeMembers<T>(n: nat, s: seq<T>)
    ensures forall x :: x in Take(n, s) ==> x in s
  {
  }
}
