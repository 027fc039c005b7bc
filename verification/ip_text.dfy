/** Splitting and joining text, as far as address parsing needs it. */
module AddressText {

  /** Where `sep` first occurs in `s`, or |s| + 1 if it does not. */
  function IndexOf(s: string, sep: string): (i: nat)
    requires sep != ""
    ensures i <= |s| ==> i + |sep| <= |s| && s[i..i + |sep|] == sep
  {
    if |s| < |sep| then |s| + 1 else if s[..|sep|] == sep then 0 else 1 + IndexOf(s[1..], sep)
  }

  function Split(s: string, sep: string): seq<string>
    requires sep != ""
  {
    var i := IndexOf(s, sep);
    if i > |s| then [s] else [s[..i]] + Split(s[i + |sep|..], sep)
  }

  function Join(parts: seq<string>, sep: char): string {
    if parts == [] then "" else if |parts| == 1 then parts[0] else parts[0] + [sep] + Join(parts[1..], sep)
  }

  lemma {:induction false} IndexOfChar(p: string, c: char, rest: string)
    requires c !in p
    ensures IndexOf(p + [c] + rest, [c]) == |p|
    ensures IndexOf(p, [c]) == |p| + 1
  {
    var s := p + [c] + rest;
    if p == [] {
      assert s[..1] == [c];
    } else {
      IndexOfChar(p[1..], c, rest);
      assert s[1..] == p[1..] + [c] + rest && s[0] == p[0];
      assert s[..1] != [c] by { assert s[..1][0] == p[0]; }
      assert p[..1] != [c] by { assert p[..1][0] == p[0]; }
    }
  }

  ghost predicate PartsWithout(parts: seq<string>, c: char) {
    forall i :: 0 <= i < |parts| ==> c !in parts[i]
  }

  lemma SplitFirst(p: string, c: char, rest: string)
    requires c !in p
    ensures Split(p + [c] + rest, [c]) == [p] + Split(rest, [c])
    ensures Split(p, [c]) == [p]
  {
    var s := p + [c] + rest;
    IndexOfChar(p, c, rest);
    assert s[..|p|] == p && s[|p| + 1..] == rest;
  }

  /** Splitting at a character undoes joining with it. */
  lemma {:induction false} SplitOfJoin(parts: seq<string>, c: char)
    requires parts != [] && PartsWithout(parts, c)
    ensures Split(Join(parts, c), [c]) == parts
  {
    if |parts| == 1 {
      SplitFirst(parts[0], c, "");
    } else {
      SplitOfJoin(parts[1..], c);
      SplitFirst(parts[0], c, Join(parts[1..], c));
      hide Split;
      assert parts == [parts[0]] + parts[1..];
    }
  }

  lemma JoinInjective(a: seq<string>, b: seq<string>, c: char)
    requires a != [] && b != [] && PartsWithout(a, c) && PartsWithout(b, c) && Join(a, c) == Join(b, c)
    ensures a == b
  {
    SplitOfJoin(a, c);
    SplitOfJoin(b, c);
  }

  lemma {:induction false} JoinConcat(a: seq<string>, b: seq<string>, c: char)
    requires a != [] && b != []
    ensures Join(a + b, c) == Join(a, c) + [c] + Join(b, c)
  {
    if |a| == 1 {
      assert (a + b)[1..] == b;
    } else {
      JoinConcat(a[1..], b, c);
      assert (a + b)[1..] == a[1..] + b;
      assert Join(a + b, c) == a[0] + [c] + (Join(a[1..], c) + [c] + Join(b, c));
    }
  }

  // ----- double colons -----------------------------------------------------------------------------------------

  /** No two colons in a row, and none at the end. */
  ghost predicate LoneColons(s: string) {
    && (s == "" || s[|s| - 1] != ':')
    && (forall i, j :: 0 <= i < j < |s| && j == i + 1 && s[i] == ':' ==> s[j] != ':')
  }

  lemma {:induction false} IndexOfDouble(p: string, rest: string)
    requires LoneColons(p)
    ensures IndexOf(p + "::" + rest, "::") == |p|
    ensures IndexOf(p, "::") == |p| + 1
  {
    var s := p + "::" + rest;
    if p == "" {
      assert s[..2] == "::";
    } else {
      assert LoneColons(p[1..]) by { assert forall i :: 0 <= i < |p[1..]| ==> p[1..][i] == p[i + 1]; }
      IndexOfDouble(p[1..], rest);
      assert s[1..] == p[1..] + "::" + rest && s[0] == p[0];
      assert s[..2] != "::" by {
        assert s[..2][0] == p[0] && (|p| > 1 ==> s[..2][1] == p[1]);
      }
      if |p| >= 2 { assert p[..2][0] == p[0] && p[..2][1] == p[1]; }
    }
  }

  /** Text with one `::` between two parts that have none splits there and nowhere else. */
  lemma SplitAtDouble(left: string, right: string)
    requires LoneColons(left) && LoneColons(right)
    ensures Split(left + "::" + right, "::") == [left, right]
    ensures Split(left, "::") == [left]
  {
    var s := left + "::" + right;
    IndexOfDouble(left, right);
    IndexOfDouble(right, "");
    assert s[..|left|] == left && s[|left| + 2..] == right;
  }

  lemma {:induction false} JoinHasLoneColons(parts: seq<string>)
    requires PartsWithout(parts, ':') && forall i :: 0 <= i < |parts| ==> parts[i] != ""
    ensures LoneColons(Join(parts, ':'))
    ensures parts != [] ==> Join(parts, ':') != "" && Join(parts, ':')[0] != ':'
  {
    if parts == [] {
    } else if |parts| == 1 {
      assert ':' !in parts[0] && parts[0][0] in parts[0];
    } else {
      JoinHasLoneColons(parts[1..]);
      var head, rest := parts[0], Join(parts[1..], ':');
      var s := head + [':'] + rest;
      assert head[0] in head && ':' !in head;
      assert forall i :: 0 <= i < |head| ==> s[i] == head[i] && head[i] in head;
      forall i, j | 0 <= i < j < |s| && j == i + 1 && s[i] == ':' ensures s[j] != ':' {
        if i > |head| {
          assert rest[i - |head| - 1] == ':' && rest[j - |head| - 1] == s[j];
        }
      }
    }
  }
}
