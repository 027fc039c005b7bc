/** Filtering, the one stable sort that `Array.prototype.sort` performs for a numeric comparator, and what scanning its
    result for the first hit finds. */
module StableSorting {
  import opened Recency
  import opened Wrappers

  function Filter<T>(s: seq<T>, keep: T -> bool): seq<T> {
    if s == [] then [] else (if keep(s[0]) then [s[0]] else []) + Filter(s[1..], keep)
  }

  lemma {:induction false} FilterMembers<T(!new)>(s: seq<T>, keep: T -> bool)
    ensures forall x :: x in Filter(s, keep) <==> x in s && keep(x)
  {
    if s != [] {
      FilterMembers(s[1..], keep);
      assert s == [s[0]] + s[1..];
    }
  }

  lemma {:induction false} FilterDistinct<T(!new)>(s: seq<T>, keep: T -> bool)
    requires Distinct(s)
    ensures Distinct(Filter(s, keep))
  {
    if s != [] {
      FilterDistinct(s[1..], keep);
      FilterMembers(s[1..], keep);
      assert s[0] !in s[1..] && s[0] !in Filter(s[1..], keep);
    }
  }

  lemma {:induction false} FilterSorted<T(!new)>(s: seq<T>, keep: T -> bool, key: T -> real)
    requires Sorted(s, key)
    ensures Sorted(Filter(s, keep), key)
  {
    if s != [] {
      FilterSorted(s[1..], keep, key);
      FilterMembers(s[1..], keep);
      var rest := Filter(s[1..], keep);
      forall j | 0 <= j < |rest| ensures key(s[0]) <= key(rest[j]) {
        assert rest[j] in s[1..];
        var i :| 0 <= i < |s[1..]| && s[1..][i] == rest[j];
        assert s[i + 1] == rest[j];
      }
    }
  }

  lemma {:induction false} FilterSnoc<T(!new)>(s: seq<T>, x: T, keep: T -> bool)
    ensures Filter(s + [x], keep) == Filter(s, keep) + if keep(x) then [x] else []
  {
    if s == [] {
      assert [x][1..] == [];
    } else {
      FilterSnoc(s[1..], x, keep);
      assert (s + [x])[1..] == s[1..] + [x];
      var head, rest, last := if keep(s[0]) then [s[0]] else [], Filter(s[1..], keep), if keep(x) then [x] else [];
      assert head + (rest + last) == (head + rest) + last;
    }
  }

  function Insert<T>(x: T, s: seq<T>, key: T -> real): seq<T> {
    if s == [] || key(x) <= key(s[0]) then [x] + s else [s[0]] + Insert(x, s[1..], key)
  }

  function Sort<T>(s: seq<T>, key: T -> real): seq<T> {
    if s == [] then [] else Insert(s[0], Sort(s[1..], key), key)
  }

  ghost predicate Sorted<T>(s: seq<T>, key: T -> real) {
    forall i, j :: 0 <= i < j < |s| ==> key(s[i]) <= key(s[j])
  }

  /** The elements with one key, in order. */
  function WithKey<T>(s: seq<T>, key: T -> real, k: real): seq<T> {
    if s == [] then [] else (if key(s[0]) == k then [s[0]] else []) + WithKey(s[1..], key, k)
  }

  /** Sorted, and elements that compare equal keep their order; in particular a permutation. */
  ghost predicate IsStableSort<T>(t: seq<T>, s: seq<T>, key: T -> real) {
    Sorted(t, key) && forall k: real :: WithKey(t, key, k) == WithKey(s, key, k)
  }

  lemma {:induction false} InsertSorted<T(!new)>(x: T, s: seq<T>, key: T -> real)
    requires Sorted(s, key)
    ensures Sorted(Insert(x, s, key), key)
    ensures forall y :: y in Insert(x, s, key) <==> y == x || y in s
  {
    if s == [] || key(x) <= key(s[0]) {
    } else {
      InsertSorted(x, s[1..], key);
      assert s == [s[0]] + s[1..];
      var rest := Insert(x, s[1..], key);
      forall y | y in rest ensures key(s[0]) <= key(y) {
        if y == x {
          assert key(s[0]) <= key(x);
        } else {
          assert y in s[1..];
          var j :| 0 <= j < |s[1..]| && s[1..][j] == y;
          assert s[j + 1] == y && key(s[0]) <= key(s[j + 1]);
        }
      }
      assert forall j :: 0 <= j < |rest| ==> rest[j] in rest;
    }
  }

  lemma {:induction false} InsertKeeps<T(!new)>(x: T, s: seq<T>, key: T -> real, k: real)
    requires Sorted(s, key)
    ensures WithKey(Insert(x, s, key), key, k) == WithKey([x] + s, key, k)
  {
    assert ([x] + s)[1..] == s;
    if s == [] || key(x) <= key(s[0]) {
    } else {
      InsertKeeps(x, s[1..], key, k);
      var rest := Insert(x, s[1..], key);
      assert ([s[0]] + rest)[1..] == rest && ([x] + s[1..])[1..] == s[1..];
      assert key(s[0]) != key(x);
      var w := WithKey(s[1..], key, k);
      assert [] + w == w;
      assert [] + ([x] + w) == [x] + ([] + w) && [s[0]] + ([] + w) == [] + ([s[0]] + w);
    }
  }

  lemma {:induction false} SortIsStable<T(!new)>(s: seq<T>, key: T -> real)
    ensures IsStableSort(Sort(s, key), s, key)
  {
    if s != [] {
      SortIsStable(s[1..], key);
      InsertSorted(s[0], Sort(s[1..], key), key);
      forall k: real ensures WithKey(Sort(s, key), key, k) == WithKey(s, key, k) {
        var t := Sort(s[1..], key);
        InsertKeeps(s[0], t, key, k);
        assert ([s[0]] + t)[1..] == t;
      }
    }
  }

  lemma {:induction false} WithKeyMembers<T(!new)>(s: seq<T>, key: T -> real, k: real)
    ensures forall y :: y in WithKey(s, key, k) <==> y in s && key(y) == k
  {
    if s != [] {
      WithKeyMembers(s[1..], key, k);
      assert s == [s[0]] + s[1..];
    }
  }

  /** There is only one stable sort of a sequence. */
  lemma {:induction false} StableSortIsUnique<T(!new)>(t: seq<T>, u: seq<T>, s: seq<T>, key: T -> real)
    requires IsStableSort(t, s, key) && IsStableSort(u, s, key)
    ensures t == u
  {
    SameGroupsSameSort(t, u, key);
  }

  lemma {:induction false} SameGroupsSameSort<T(!new)>(t: seq<T>, u: seq<T>, key: T -> real)
    requires Sorted(t, key) && Sorted(u, key)
    requires forall k: real :: WithKey(t, key, k) == WithKey(u, key, k)
    ensures t == u
  {
    if t == [] || u == [] {
      if t != [] { WithKeyMembers(u, key, key(t[0])); WithKeyMembers(t, key, key(t[0])); }
      if u != [] { WithKeyMembers(u, key, key(u[0])); WithKeyMembers(t, key, key(u[0])); }
    } else {
      var a, b := t[0], u[0];
      WithKeyMembers(t, key, key(b));
      WithKeyMembers(u, key, key(b));
      WithKeyMembers(t, key, key(a));
      WithKeyMembers(u, key, key(a));
      assert b in t && a in u;
      assert key(a) == key(b);
      assert WithKey(t, key, key(a))[0] == a && WithKey(u, key, key(a))[0] == b;
      forall k: real ensures WithKey(t[1..], key, k) == WithKey(u[1..], key, k) {
        assert WithKey(t, key, k) == WithKey(u, key, k);
        var head := if key(a) == k then [a] else [];
        assert WithKey(t[1..], key, k) == WithKey(t, key, k)[|head|..];
        assert WithKey(u[1..], key, k) == WithKey(u, key, k)[|head|..];
      }
      SameGroupsSameSort(t[1..], u[1..], key);
      assert t == [a] + t[1..] && u == [b] + u[1..];
    }
  }

  /** Sorting what is sorted already changes nothing. */
  lemma SortOfSorted<T(!new)>(s: seq<T>, key: T -> real)
    requires Sorted(s, key)
    ensures Sort(s, key) == s
  {
    SortIsStable(s, key);
    StableSortIsUnique(Sort(s, key), s, s, key);
  }

  // ----- scanning --------------------------------------------------------------------------------------------

  function FirstHit<T>(s: seq<T>, hit: T -> bool): Option<T> {
    if s == [] then None else if hit(s[0]) then Some(s[0]) else FirstHit(s[1..], hit)
  }

  /** `s[i]` is a hit of least key, and the first of those. */
  ghost predicate IsBest<T>(s: seq<T>, i: nat, hit: T -> bool, key: T -> real) {
    && i < |s| && hit(s[i])
    && (forall j :: 0 <= j < |s| && hit(s[j]) ==> key(s[i]) <= key(s[j]))
    && (forall j :: 0 <= j < i && hit(s[j]) ==> key(s[i]) < key(s[j]))
  }

  lemma {:induction false} FirstHitOfInsert<T(!new)>(x: T, s: seq<T>, hit: T -> bool, key: T -> real)
    requires Sorted(s, key)
    ensures FirstHit(Insert(x, s, key), hit)
         == if hit(x) && (FirstHit(s, hit).None? || key(x) <= key(FirstHit(s, hit).value)) then Some(x)
            else FirstHit(s, hit)
  {
    assert ([x] + s)[1..] == s;
    FirstHitMember(s, hit);
    if s == [] || key(x) <= key(s[0]) {
    } else {
      FirstHitOfInsert(x, s[1..], hit, key);
      var rest := Insert(x, s[1..], key);
      assert ([s[0]] + rest)[1..] == rest;
    }
  }

  lemma {:induction false} FirstHitMember<T(!new)>(s: seq<T>, hit: T -> bool)
    ensures FirstHit(s, hit).Some? ==> FirstHit(s, hit).value in s && hit(FirstHit(s, hit).value)
    ensures FirstHit(s, hit).None? <==> forall x :: x in s ==> !hit(x)
  {
    if s != [] {
      FirstHitMember(s[1..], hit);
      assert s == [s[0]] + s[1..];
    }
  }

  /** Reading from the back: the hit of least key, and of those the earliest. */
  function Best<T>(s: seq<T>, hit: T -> bool, key: T -> real): Option<T> {
    if s == [] then None
    else
      var rest := Best(s[1..], hit, key);
      if hit(s[0]) && (rest.None? || key(s[0]) <= key(rest.value)) then Some(s[0]) else rest
  }

  /** Sorting and scanning for the first hit finds the best hit of the unsorted sequence. */
  lemma {:induction false} SortThenScanIsBest<T(!new)>(s: seq<T>, hit: T -> bool, key: T -> real)
    ensures FirstHit(Sort(s, key), hit) == Best(s, hit, key)
  {
    if s != [] {
      SortThenScanIsBest(s[1..], hit, key);
      SortIsStable(s[1..], key);
      FirstHitOfInsert(s[0], Sort(s[1..], key), hit, key);
    }
  }

  /** The best hit is the one of least key that comes earliest, and there is one if anything is a hit. */
  lemma {:induction false} BestIsOptimal<T(!new)>(s: seq<T>, hit: T -> bool, key: T -> real)
    ensures Best(s, hit, key).None? <==> forall x :: x in s ==> !hit(x)
    ensures Best(s, hit, key).Some? ==> exists i: nat :: IsBest(s, i, hit, key) && s[i] == Best(s, hit, key).value
  {
    if s != [] {
      BestIsOptimal(s[1..], hit, key);
      var rest := Best(s[1..], hit, key);
      assert s == [s[0]] + s[1..];
      if rest.Some? {
        var i: nat :| IsBest(s[1..], i, hit, key) && s[1..][i] == rest.value;
        BestAfterCons(s, i, hit, key);
      } else if hit(s[0]) {
        assert forall j :: 0 < j < |s| ==> s[j] in s[1..] && !hit(s[j]);
        assert IsBest(s, 0, hit, key);
      }
    }
  }

  function Both<T>(p: T -> bool, q: T -> bool): T -> bool {
    (x: T) => p(x) && q(x)
  }

  /** Filtering first is the same as asking for both. */
  lemma {:induction false} BestOfFilter<T(!new)>(s: seq<T>, keep: T -> bool, hit: T -> bool, key: T -> real)
    ensures Best(Filter(s, keep), hit, key) == Best(s, Both(keep, hit), key)
  {
    if s != [] {
      BestOfFilter(s[1..], keep, hit, key);
      var rest := Filter(s[1..], keep);
      assert ([s[0]] + rest)[1..] == rest && [] + rest == rest;
    }
  }

  lemma BestAfterCons<T(!new)>(s: seq<T>, i: nat, hit: T -> bool, key: T -> real)
    requires s != [] && IsBest(s[1..], i, hit, key)
    ensures if hit(s[0]) && key(s[0]) <= key(s[i + 1]) then IsBest(s, 0, hit, key) else IsBest(s, i + 1, hit, key)
  {
    assert forall j :: 0 < j < |s| ==> s[1..][j - 1] == s[j];
  }
}
