/** Sequence operations shared by the dashboard's pages and hooks: the
    JavaScript array methods they use (filter, map, a Set round trip) and the
    "toggle a value in a list" idiom of the filter menus. */
module Collections {

  datatype Option<T> = None | Some(value: T)

  datatype Result<T, E> = Ok(value: T) | Err(error: E)

  /** `a` can be obtained from `b` by deleting elements: the relative order of
      the kept elements is that of `b`. */
  ghost predicate IsSubsequence<T>(a: seq<T>, b: seq<T>)
    decreases |b|
  {
    a == [] ||
    (b != [] &&
     ((a[0] == b[0] && IsSubsequence(a[1..], b[1..])) || IsSubsequence(a, b[1..])))
  }

  /** `Array.prototype.filter`: the elements of `s` that satisfy `p`, in order. */
  function Filter<T(!new)>(p: T -> bool, s: seq<T>): (r: seq<T>)
    ensures |r| <= |s|
    ensures forall i :: 0 <= i < |r| ==> r[i] in s && p(r[i])
    ensures forall i :: 0 <= i < |s| && p(s[i]) ==> s[i] in r
    ensures forall x :: multiset(r)[x] == if p(x) then multiset(s)[x] else 0
    decreases |s|
  {
    if s == [] then []
    else
      assert multiset(s) == multiset([s[0]]) + multiset(s[1..]) by {
        assert s == [s[0]] + s[1..];
      }
      if p(s[0]) then [s[0]] + Filter(p, s[1..]) else Filter(p, s[1..])
  }

  /** `s.map(f)` */
  function Project<T, U>(f: T -> U, s: seq<T>): (r: seq<U>)
    ensures |r| == |s| && forall i :: 0 <= i < |s| ==> r[i] == f(s[i])
  {
    seq(|s|, i requires 0 <= i < |s| => f(s[i]))
  }

  /** `s.filter(x => key(x) === v).length` is the number of times `v`
      occurs among the keys of `s`. */
  lemma {:induction false} FilterCountsOccurrences<T(!new), U>(p: T -> bool, key: T -> U, v: U, s: seq<T>)
    requires forall x :: p(x) <==> key(x) == v
    ensures |Filter(p, s)| == multiset(Project(key, s))[v]
    decreases |s|
  {
    if s != [] {
      FilterCountsOccurrences(p, key, v, s[1..]);
      assert Project(key, s) == [key(s[0])] + Project(key, s[1..]);
    }
  }

  lemma {:induction false} FilterIsSubsequence<T(!new)>(p: T -> bool, s: seq<T>)
    ensures IsSubsequence(Filter(p, s), s)
    decreases |s|
  {
    if s != [] {
      FilterIsSubsequence(p, s[1..]);
      var r := Filter(p, s);
      if p(s[0]) {
        assert r == [s[0]] + Filter(p, s[1..]);
        assert r[1..] == Filter(p, s[1..]);
      } else {
        assert r == Filter(p, s[1..]);
      }
    }
  }

  /** Filtering distributes over concatenation: the kept elements of the
      first part all come before the kept elements of the second part. */
  lemma {:induction false} FilterAppend<T(!new)>(p: T -> bool, a: seq<T>, b: seq<T>)
    ensures Filter(p, a + b) == Filter(p, a) + Filter(p, b)
    decreases |a|
  {
    if a == [] {
      assert a + b == b;
    } else {
      assert (a + b)[0] == a[0];
      assert (a + b)[1..] == a[1..] + b;
      FilterAppend(p, a[1..], b);
    }
  }

  /** A filter that every element passes returns the input unchanged. */
  lemma {:induction false} FilterAll<T(!new)>(p: T -> bool, s: seq<T>)
    requires forall i :: 0 <= i < |s| ==> p(s[i])
    ensures Filter(p, s) == s
    decreases |s|
  {
    if s != [] {
      FilterAll(p, s[1..]);
    }
  }

  /** Counting with `filter(...).length`: two predicates that never hold
      together count at most the whole sequence. */
  lemma {:induction false} FilterDisjointCounts<T(!new)>(p: T -> bool, q: T -> bool, s: seq<T>)
    requires forall x :: !(p(x) && q(x))
    ensures |Filter(p, s)| + |Filter(q, s)| <= |s|
    decreases |s|
  {
    if s != [] {
      FilterDisjointCounts(p, q, s[1..]);
    }
  }

  /** Three predicates of which exactly one holds of every element partition
      the sequence, so their counts add up to its length. */
  lemma {:induction false} FilterPartitionCounts<T(!new)>(p: T -> bool, q: T -> bool, o: T -> bool, s: seq<T>)
    requires forall x :: (p(x) ==> !q(x) && !o(x)) && (q(x) ==> !o(x)) && (p(x) || q(x) || o(x))
    ensures |Filter(p, s)| + |Filter(q, s)| + |Filter(o, s)| == |s|
    decreases |s|
  {
    if s != [] {
      FilterPartitionCounts(p, q, o, s[1..]);
    }
  }

  /** `s.map(x => m(x) ? f(x) : x)`: the elements selected by `m` are
      replaced by `f` of themselves, the rest stay where they are. */
  function MapWhere<T>(s: seq<T>, m: T -> bool, f: T -> T): (r: seq<T>)
    ensures |r| == |s|
    ensures forall i :: 0 <= i < |s| ==> r[i] == if m(s[i]) then f(s[i]) else s[i]
    decreases |s|
  {
    if s == [] then [] else [if m(s[0]) then f(s[0]) else s[0]] + MapWhere(s[1..], m, f)
  }

  /** A map that selects nothing returns the input unchanged. */
  lemma MapWhereNoMatch<T>(s: seq<T>, m: T -> bool, f: T -> T)
    requires forall i :: 0 <= i < |s| ==> !m(s[i])
    ensures MapWhere(s, m, f) == s
  {
  }

  /** The filter menus' toggle: `prev.includes(x) ? prev.filter(y => y !== x) : [...prev, x]`. */
  function Toggle<T(==,!new)>(s: seq<T>, x: T): (r: seq<T>)
    ensures x in r <==> x !in s
    ensures forall i :: 0 <= i < |r| && r[i] != x ==> r[i] in s
    ensures forall i :: 0 <= i < |s| && s[i] != x ==> s[i] in r
    ensures x !in s ==> r == s + [x]
    ensures x in s ==> IsSubsequence(r, s) && |r| < |s|
  {
    if x in s then
      FilterIsSubsequence(y => y != x, s);
      FilterDropsOne(s, x);
      Filter(y => y != x, s)
    else
      s + [x]
  }

  lemma {:induction false} FilterDropsOne<T(!new)>(s: seq<T>, x: T)
    requires x in s
    ensures |Filter(y => y != x, s)| < |s|
    decreases |s|
  {
    if s[0] != x {
      FilterDropsOne(s[1..], x);
    }
  }

  /** Toggling the same value twice restores every membership. */
  lemma ToggleTwice<T(!new)>(s: seq<T>, x: T)
    ensures x in Toggle(Toggle(s, x), x) <==> x in s
    ensures forall i :: 0 <= i < |s| ==> s[i] in Toggle(Toggle(s, x), x)
  {
  }

  /** `Array.from(new Set(s))`: the distinct elements of `s`, each at the
      position of its first occurrence. */
  function Dedup<T(==)>(s: seq<T>): (r: seq<T>)
    ensures forall i :: 0 <= i < |r| ==> r[i] in s
    ensures forall i :: 0 <= i < |s| ==> s[i] in r
    ensures forall i, j :: 0 <= i < j < |r| ==> r[i] != r[j]
    decreases |s|
  {
    if s == [] then []
    else
      var d := Dedup(s[..|s| - 1]);
      assert forall i :: 0 <= i < |s| - 1 ==> s[i] == s[..|s| - 1][i];
      if s[|s| - 1] in d then d else d + [s[|s| - 1]]
  }

  /** Index of the first occurrence of `x` in `s`. */
  function FirstIndex<T(==)>(s: seq<T>, x: T): (k: nat)
    requires x in s
    ensures k < |s| && s[k] == x && x !in s[..k]
    decreases |s|
  {
    if s[0] == x then 0
    else
      var k := FirstIndex(s[1..], x);
      assert s[..k + 1] == [s[0]] + s[1..][..k];
      k + 1
  }

  lemma {:induction false} FirstIndexPrefix<T>(s: seq<T>, n: nat, x: T)
    requires n <= |s| && x in s[..n]
    ensures FirstIndex(s, x) == FirstIndex(s[..n], x)
    decreases |s|
  {
    var p := s[..n];
    assert p[0] == s[0];
    if s[0] != x {
      assert p[1..] == s[1..][..n - 1];
      assert x in p[1..];
      FirstIndexPrefix(s[1..], n - 1, x);
      assert FirstIndex(s, x) == FirstIndex(s[1..], x) + 1;
      assert FirstIndex(p, x) == FirstIndex(p[1..], x) + 1;
    }
  }

  /** Dedup lists the categories in the order of their first appearance. */
  lemma {:induction false} DedupFirstAppearanceOrder<T>(s: seq<T>, i: nat, j: nat)
    requires i < j < |Dedup(s)|
    ensures Dedup(s)[i] in s && Dedup(s)[j] in s
    ensures FirstIndex(s, Dedup(s)[i]) < FirstIndex(s, Dedup(s)[j])
    decreases |s|
  {
    var n := |s| - 1;
    var init := s[..n];
    var d := Dedup(init);
    assert Dedup(s)[i] in Dedup(s) && Dedup(s)[j] in Dedup(s);
    if s[n] in d {
      DedupFirstAppearanceOrder(init, i, j);
      FirstIndexPrefix(s, n, d[i]);
      FirstIndexPrefix(s, n, d[j]);
    } else {
      assert Dedup(s) == d + [s[n]];
      FirstIndexPrefix(s, n, d[i]);
      if j < |d| {
        DedupFirstAppearanceOrder(init, i, j);
        FirstIndexPrefix(s, n, d[j]);
      } else {
        assert Dedup(s)[j] == s[n];
        assert s[n] !in init;
        assert s[..n] == init;
        var k := FirstIndex(s, s[n]);
        assert k == n;
      }
    }
  }
}
