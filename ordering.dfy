/**
 * The order Go uses on strings, the `sort.Strings` library call, and the
 * enumeration of a map's keys in Go's (unspecified) iteration order.
 *
 * Go compares strings byte by byte; for valid UTF-8 that is the same as
 * comparing the code points in order, which is what `Less` does on Dafny's
 * `char`s.
 */
module Ordering {

  /** `a < b` on Go strings: lexicographic, a proper prefix comes first. */
  predicate Less(a: string, b: string)
    decreases |a|
  {
    if |a| == 0 then |b| > 0
    else |b| > 0 && (a[0] < b[0] || (a[0] == b[0] && Less(a[1..], b[1..])))
  }

  /**
   * Go's string order stated directly: `a` is a proper prefix of `b`, or at the first index where
   * they differ `a` holds the smaller element.
   */
  ghost predicate LexicographicallyBefore(a: string, b: string)
  {
    || (|a| < |b| && a == b[..|a|])
    || exists k :: 0 <= k < |a| && k < |b| && a[..k] == b[..k] && a[k] < b[k]
  }

  /** The recursive `Less` is exactly that order. */
  lemma {:induction false} LessIsLexicographic(a: string, b: string)
    ensures Less(a, b) <==> LexicographicallyBefore(a, b)
    decreases |a|
  {
    if |a| > 0 && |b| > 0 {
      LessIsLexicographic(a[1..], b[1..]);
      if Less(a, b) && a[0] == b[0] {
        if |a[1..]| < |b[1..]| && a[1..] == b[1..][..|a[1..]|] {
          assert a == [a[0]] + a[1..] && b[..|a|] == [b[0]] + b[1..][..|a[1..]|];
        } else {
          var k :| 0 <= k < |a[1..]| && k < |b[1..]| && a[1..][..k] == b[1..][..k] && a[1..][k] < b[1..][k];
          assert a[..k + 1] == [a[0]] + a[1..][..k] && b[..k + 1] == [b[0]] + b[1..][..k];
          assert a[k + 1] < b[k + 1];
        }
      }
      if LexicographicallyBefore(a, b) && !(a[0] < b[0]) {
        if |a| < |b| && a == b[..|a|] {
          assert a[0] == b[0];
          assert a[1..] == b[1..][..|a[1..]|];
        } else {
          var k :| 0 <= k < |a| && k < |b| && a[..k] == b[..k] && a[k] < b[k];
          if k > 0 {
            assert a[0] == a[..k][0] == b[..k][0] == b[0];
            assert a[1..][..k - 1] == a[..k][1..] == b[..k][1..] == b[1..][..k - 1];
            assert a[1..][k - 1] < b[1..][k - 1];
          }
        }
      }
    }
  }

  lemma {:induction false} LessIrreflexive(a: string)
    ensures !Less(a, a)
    decreases |a|
  {
    if |a| > 0 {
      LessIrreflexive(a[1..]);
    }
  }

  lemma {:induction false} LessTransitive(a: string, b: string, c: string)
    requires Less(a, b) && Less(b, c)
    ensures Less(a, c)
    decreases |a|
  {
    if |a| > 0 && a[0] == b[0] && b[0] == c[0] {
      LessTransitive(a[1..], b[1..], c[1..]);
    }
  }

  lemma {:induction false} LessTotal(a: string, b: string)
    requires a != b
    ensures Less(a, b) || Less(b, a)
    decreases |a|
  {
    if |a| > 0 && |b| > 0 && a[0] == b[0] {
      assert a == [a[0]] + a[1..] && b == [b[0]] + b[1..];
      LessTotal(a[1..], b[1..]);
    }
  }

  lemma LessAsymmetric(a: string, b: string)
    requires Less(a, b)
    ensures !Less(b, a)
  {
    if Less(b, a) {
      LessTransitive(a, b, a);
      LessIrreflexive(a);
    }
  }

  /** Two strings neither of which is below the other are equal. */
  lemma NotLessAntisymmetric(a: string, b: string)
    requires !Less(a, b) && !Less(b, a)
    ensures a == b
  {
    if a != b {
      LessTotal(a, b);
    }
  }

  /** "at most" is transitive: a <= b <= c implies a <= c. */
  lemma NotLessTransitive(a: string, b: string, c: string)
    requires !Less(b, a) && !Less(c, b)
    ensures !Less(c, a)
  {
    if Less(c, a) && a != b {
      LessTotal(a, b);
      LessTransitive(c, a, b);
    }
  }

  /** Sorted as `sort.Strings` leaves a slice: no element is below an earlier one. */
  ghost predicate Ascending(s: seq<string>)
  {
    forall i, j :: 0 <= i < j < |s| ==> !Less(s[j], s[i])
  }

  /** Sorted without repetitions. */
  ghost predicate StrictlyAscending(s: seq<string>)
  {
    forall i, j :: 0 <= i < j < |s| ==> Less(s[i], s[j])
  }

  lemma StrictlyAscendingIsAscending(s: seq<string>)
    requires StrictlyAscending(s)
    ensures Ascending(s)
  {
    forall i, j | 0 <= i < j < |s|
      ensures !Less(s[j], s[i])
    {
      LessAsymmetric(s[i], s[j]);
    }
  }

  /** Puts `x` into its place in the sorted `s`, before the first element not below it. */
  function Insert(x: string, s: seq<string>): (r: seq<string>)
    requires Ascending(s)
    ensures Ascending(r)
    ensures multiset(r) == multiset(s) + multiset{x}
  {
    if s == [] || !Less(s[0], x) then
      InsertFirstAscending(x, s);
      [x] + s
    else
      var t := Insert(x, s[1..]);
      assert s == [s[0]] + s[1..];
      InsertLaterAscending(x, s, t);
      [s[0]] + t
  }

  lemma InsertFirstAscending(x: string, s: seq<string>)
    requires Ascending(s)
    requires s == [] || !Less(s[0], x)
    ensures Ascending([x] + s)
  {
    var r := [x] + s;
    forall i, j | 0 <= i < j < |r|
      ensures !Less(r[j], r[i])
    {
      if i == 0 && j > 1 {
        NotLessTransitive(x, s[0], s[j - 1]);
      }
    }
  }

  lemma InsertLaterAscending(x: string, s: seq<string>, t: seq<string>)
    requires Ascending(s) && s != [] && Less(s[0], x)
    requires Ascending(t) && multiset(t) == multiset(s[1..]) + multiset{x}
    ensures Ascending([s[0]] + t)
  {
    forall j | 0 <= j < |t|
      ensures !Less(t[j], s[0])
    {
      assert t[j] in multiset(t);
      if t[j] == x {
        LessAsymmetric(s[0], x);
      } else {
        assert t[j] in multiset(s[1..]);
        var k :| 0 <= k < |s[1..]| && s[1..][k] == t[j];
        assert s[k + 1] == t[j];
      }
    }
    var r := [s[0]] + t;
    forall i, j | 0 <= i < j < |r|
      ensures !Less(r[j], r[i])
    {
      if i == 0 {
        assert r[j] == t[j - 1];
      } else {
        assert r[i] == t[i - 1] && r[j] == t[j - 1];
      }
    }
  }

  /** The result `sort.Strings` leaves: the same strings, in ascending order. */
  function Sort(s: seq<string>): (r: seq<string>)
    ensures Ascending(r)
    ensures multiset(r) == multiset(s)
    decreases |s|
  {
    if s == [] then []
    else
      assert s == [s[0]] + s[1..];
      Insert(s[0], Sort(s[1..]))
  }

  /** Sorting determines its result: two ascending arrangements of the same strings are equal. */
  lemma {:induction false} AscendingUnique(a: seq<string>, b: seq<string>)
    requires Ascending(a) && Ascending(b)
    requires multiset(a) == multiset(b)
    ensures a == b
    decreases |a|
  {
    assert |a| == |multiset(a)| == |multiset(b)| == |b|;
    if a != [] {
      AscendingHeadsEqual(a, b);
      AscendingTail(a);
      AscendingTail(b);
      AscendingUnique(a[1..], b[1..]);
      assert a == [a[0]] + a[1..] && b == [b[0]] + b[1..];
    }
  }

  lemma AscendingHeadsEqual(a: seq<string>, b: seq<string>)
    requires Ascending(a) && Ascending(b)
    requires multiset(a) == multiset(b) && a != [] && b != []
    ensures a[0] == b[0]
    ensures multiset(a[1..]) == multiset(b[1..])
  {
    assert a[0] in multiset(b);
    var k :| 0 <= k < |b| && b[k] == a[0];
    assert b[0] in multiset(a);
    var l :| 0 <= l < |a| && a[l] == b[0];
    LessIrreflexive(a[0]);
    LessIrreflexive(b[0]);
    assert !Less(b[k], b[0]) && !Less(a[l], a[0]);
    NotLessAntisymmetric(a[0], b[0]);
    assert a == [a[0]] + a[1..] && b == [b[0]] + b[1..];
    assert multiset(a[1..]) == multiset(a) - multiset{a[0]};
    assert multiset(b[1..]) == multiset(b) - multiset{b[0]};
  }

  lemma AscendingTail(a: seq<string>)
    requires Ascending(a) && a != []
    ensures Ascending(a[1..])
  {
    forall i, j | 0 <= i < j < |a[1..]|
      ensures !Less(a[1..][j], a[1..][i])
    {
      assert a[1..][j] == a[j + 1] && a[1..][i] == a[i + 1];
    }
  }

  /** Go's map iteration order does not reach past a sort: any two orderings of the same strings sort alike. */
  lemma SortOrderIndependent(s1: seq<string>, s2: seq<string>)
    requires multiset(s1) == multiset(s2)
    ensures Sort(s1) == Sort(s2)
  {
    AscendingUnique(Sort(s1), Sort(s2));
  }

  /** `m` is the least element of `S`. */
  ghost predicate IsLeast(m: string, S: set<string>)
  {
    m in S && forall y :: y in S && y != m ==> Less(m, y)
  }

  /** A finite non-empty set of strings has a least element. */
  lemma {:induction false} MinimumExists(S: set<string>)
    requires S != {}
    ensures exists m :: IsLeast(m, S)
    decreases |S|
  {
    var x :| x in S;
    var rest := S - {x};
    if rest == {} {
      assert S == {x};
      assert IsLeast(x, S);
    } else {
      MinimumExists(rest);
      var m :| IsLeast(m, rest);
      if Less(x, m) {
        forall y | y in S && y != x
          ensures Less(x, y)
        {
          if y != m {
            LessTransitive(x, m, y);
          }
        }
        assert IsLeast(x, S);
      } else {
        LessTotal(x, m);
        assert IsLeast(m, S);
      }
    }
  }

  /** The keys of a set in ascending order: the canonical order in which Go code visits sorted map keys. */
  ghost function SortedSeq(S: set<string>): (r: seq<string>)
    ensures StrictlyAscending(r)
    ensures multiset(r) == multiset(S)
    ensures forall x :: x in r <==> x in S
    decreases S
  {
    if S == {} then []
    else
      MinimumExists(S);
      var m :| IsLeast(m, S);
      var rest := SortedSeq(S - {m});
      ConsStrictlyAscending(m, rest, S);
      [m] + rest
  }

  lemma ConsStrictlyAscending(m: string, rest: seq<string>, S: set<string>)
    requires IsLeast(m, S)
    requires StrictlyAscending(rest) && forall x :: x in rest <==> x in S - {m}
    requires multiset(rest) == multiset(S - {m})
    ensures StrictlyAscending([m] + rest)
    ensures multiset([m] + rest) == multiset(S)
  {
    var r := [m] + rest;
    forall i, j | 0 <= i < j < |r|
      ensures Less(r[i], r[j])
    {
      if i == 0 {
        assert r[j] == rest[j - 1] && rest[j - 1] in rest;
      } else {
        assert r[i] == rest[i - 1] && r[j] == rest[j - 1];
      }
    }
    MultisetOfSetSplit(m, S);
  }

  lemma MultisetOfSetSplit(m: string, S: set<string>)
    requires m in S
    ensures multiset(S) == multiset(S - {m}) + multiset{m}
  {
    assert S == (S - {m}) + {m};
  }

  /** Sorting any enumeration of a key set yields the canonical ascending order. */
  lemma SortIsCanonical(keys: seq<string>, S: set<string>)
    requires multiset(keys) == multiset(S)
    ensures Sort(keys) == SortedSeq(S)
  {
    StrictlyAscendingIsAscending(SortedSeq(S));
    AscendingUnique(Sort(keys), SortedSeq(S));
  }

  /** Collects the keys of `m` the way `for k := range m { keys = append(keys, k) }` does, in whatever order the map yields them. */
  method CollectKeys<V>(m: map<string, V>) returns (keys: seq<string>)
    ensures multiset(keys) == multiset(m.Keys)
  {
    keys := [];
    var rest := m.Keys;
    while rest != {}
      invariant rest <= m.Keys
      invariant multiset(keys) + multiset(rest) == multiset(m.Keys)
      decreases |rest|
    {
      var k :| k in rest;
      assert rest == (rest - {k}) + {k};
      assert multiset(rest) == multiset(rest - {k}) + multiset{k};
      keys := keys + [k];
      rest := rest - {k};
    }
  }
}
