/**
 * Python's `list.sort(key=...)` and `sorted(..., key=...)` as used by the plotting
 * script: a STABLE sort whose keys are tuples of numbers compared lexicographically.
 * The keys used there have at most three components, so a key is a triple of reals
 * (unused trailing components are 0.0, which does not change the order).
 *
 * The sort itself is a functional insertion sort: the library's algorithm is not part
 * of the script, only its result is, and a stable sort's result is unique.
 */
module StableSort {

  datatype Key = Key(first: real, second: real, third: real)

  /** Python's `<` on numeric tuples. */
  predicate KeyLt(a: Key, b: Key) {
    a.first < b.first
    || (a.first == b.first && (a.second < b.second || (a.second == b.second && a.third < b.third)))
  }

  predicate KeyLe(a: Key, b: Key) {
    KeyLt(a, b) || a == b
  }

  /** Inserts `x` after every element whose key is not greater than its own. */
  function Insert<T>(key: T -> Key, x: T, s: seq<T>): (r: seq<T>)
    ensures |r| == |s| + 1
    ensures multiset(r) == multiset(s) + multiset{x}
  {
    if s == [] then [x]
    else if KeyLt(key(x), key(s[0])) then [x] + s
    else
      assert s == [s[0]] + s[1..];
      [s[0]] + Insert(key, x, s[1..])
  }

  /** The list sorted by `key`, equal keys keeping their original order. */
  function SortBy<T>(key: T -> Key, s: seq<T>): (r: seq<T>)
    ensures |r| == |s|
    ensures multiset(r) == multiset(s)
  {
    if s == [] then []
    else
      assert s == s[..|s| - 1] + [s[|s| - 1]];
      Insert(key, s[|s| - 1], SortBy(key, s[..|s| - 1]))
  }

  ghost predicate SortedBy<T>(key: T -> Key, s: seq<T>) {
    forall i, j :: 0 <= i < j < |s| ==> KeyLe(key(s[i]), key(s[j]))
  }

  /** Elements with equal keys appear in increasing order of `tag`. */
  ghost predicate StableBy<T>(key: T -> Key, tag: T -> int, s: seq<T>) {
    forall i, j :: 0 <= i < j < |s| && key(s[i]) == key(s[j]) ==> tag(s[i]) < tag(s[j])
  }

  ghost predicate TagsIncreasing<T>(tag: T -> int, s: seq<T>) {
    forall i, j :: 0 <= i < j < |s| ==> tag(s[i]) < tag(s[j])
  }

  /** `Insert` places `x` at position `m`: after the prefix whose keys are not above `x`'s. */
  lemma {:induction false} InsertSplit<T>(key: T -> Key, x: T, s: seq<T>) returns (m: nat)
    ensures m <= |s| && Insert(key, x, s) == s[..m] + [x] + s[m..]
    ensures forall i :: 0 <= i < m ==> KeyLe(key(s[i]), key(x))
    ensures m < |s| ==> KeyLt(key(x), key(s[m]))
  {
    if s == [] || KeyLt(key(x), key(s[0])) {
      m := 0;
    } else {
      var m' := InsertSplit(key, x, s[1..]);
      m := m' + 1;
      assert s[..m] == [s[0]] + s[1..][..m'];
      assert s[m..] == s[1..][m'..];
    }
  }

  /** Inserting into a sorted list keeps it sorted. */
  lemma InsertSorted<T>(key: T -> Key, x: T, s: seq<T>)
    requires SortedBy(key, s)
    ensures SortedBy(key, Insert(key, x, s))
  {
    var m := InsertSplit(key, x, s);
    var r := Insert(key, x, s);
    assert forall i :: 0 <= i < |r| ==> r[i] == if i < m then s[i] else if i == m then x else s[i - 1];
    forall i, j | 0 <= i < j < |r| ensures KeyLe(key(r[i]), key(r[j])) {
      if i == m {
        assert KeyLe(key(s[m]), key(s[j - 1]));
      }
    }
  }

  /** Inserting an element whose tag exceeds every tag present keeps equal keys in tag order. */
  lemma InsertStable<T>(key: T -> Key, tag: T -> int, x: T, s: seq<T>)
    requires SortedBy(key, s) && StableBy(key, tag, s)
    requires forall i :: 0 <= i < |s| ==> tag(s[i]) < tag(x)
    ensures StableBy(key, tag, Insert(key, x, s))
  {
    var m := InsertSplit(key, x, s);
    var r := s[..m] + [x] + s[m..];
    forall i, j | 0 <= i < j < |r| && key(r[i]) == key(r[j]) ensures tag(r[i]) < tag(r[j]) {
      SplitPairStable(key, tag, x, s, m, i, j);
    }
  }

  /** One pair of positions of `s[..m] + [x] + s[m..]`, with `x` placed as `InsertSplit` places it. */
  lemma SplitPairStable<T>(key: T -> Key, tag: T -> int, x: T, s: seq<T>, m: nat, i: nat, j: nat)
    requires SortedBy(key, s) && StableBy(key, tag, s)
    requires forall k :: 0 <= k < |s| ==> tag(s[k]) < tag(x)
    requires m <= |s| && (m < |s| ==> KeyLt(key(x), key(s[m])))
    requires i < j <= |s|
    requires var r := s[..m] + [x] + s[m..]; key(r[i]) == key(r[j])
    ensures var r := s[..m] + [x] + s[m..]; tag(r[i]) < tag(r[j])
  {
    var r := s[..m] + [x] + s[m..];
    if j < m {
      assert r[i] == s[i] && r[j] == s[j];
    } else if j == m {
      assert r[i] == s[i] && r[j] == x;
    } else if i < m {
      assert r[i] == s[i] && r[j] == s[j - 1];
    } else if i == m {
      assert r[i] == x && r[j] == s[j - 1];
      assert KeyLe(key(s[m]), key(s[j - 1]));
      assert false;
    } else {
      assert r[i] == s[i - 1] && r[j] == s[j - 1];
    }
  }

  /** The result is sorted by `key`. */
  lemma {:induction false} SortBySorted<T>(key: T -> Key, s: seq<T>)
    ensures SortedBy(key, SortBy(key, s))
  {
    if s != [] {
      SortBySorted(key, s[..|s| - 1]);
      InsertSorted(key, s[|s| - 1], SortBy(key, s[..|s| - 1]));
    }
  }

  /** The sort is stable: when the input's tags increase, equal keys come out in tag order. */
  lemma {:induction false} SortByStable<T>(key: T -> Key, tag: T -> int, s: seq<T>)
    requires TagsIncreasing(tag, s)
    ensures StableBy(key, tag, SortBy(key, s))
  {
    if s != [] {
      var init, x := s[..|s| - 1], s[|s| - 1];
      SortBySorted(key, init);
      SortByStable(key, tag, init);
      var t := SortBy(key, init);
      forall i | 0 <= i < |t| ensures tag(t[i]) < tag(x) {
        assert t[i] in multiset(init);
      }
      InsertStable(key, tag, x, t);
    }
  }

  /** Every key in `s` is at most `k`. */
  ghost predicate AllKeysAtMost<T>(key: T -> Key, s: seq<T>, k: Key) {
    forall i :: 0 <= i < |s| ==> KeyLe(key(s[i]), k)
  }

  /** An element whose key is not below any key present goes to the end. */
  lemma {:induction false} InsertLast<T>(key: T -> Key, x: T, s: seq<T>)
    requires AllKeysAtMost(key, s, key(x))
    ensures Insert(key, x, s) == s + [x]
  {
    if s != [] {
      assert !KeyLt(key(x), key(s[0]));
      InsertLast(key, x, s[1..]);
      assert s == [s[0]] + s[1..];
    }
  }

  /** Dropping the last element of a sorted list leaves it sorted, below that element. */
  lemma SortedInit<T>(key: T -> Key, s: seq<T>)
    requires SortedBy(key, s) && s != []
    ensures SortedBy(key, s[..|s| - 1])
    ensures AllKeysAtMost(key, s[..|s| - 1], key(s[|s| - 1]))
  {
  }

  /** A list already sorted by `key` is left as it is (the sort is stable). */
  lemma {:induction false} SortByOfSorted<T>(key: T -> Key, s: seq<T>)
    requires SortedBy(key, s)
    ensures SortBy(key, s) == s
  {
    if s != [] {
      var init, x := s[..|s| - 1], s[|s| - 1];
      SortedInit(key, s);
      SortByOfSorted(key, init);
      InsertLast(key, x, init);
      assert s == init + [x];
    }
  }

  /** `[f(x) for x in s]` */
  function Map<T, U>(f: T -> U, s: seq<T>): (r: seq<U>)
    ensures |r| == |s|
  {
    if s == [] then [] else [f(s[0])] + Map(f, s[1..])
  }

  lemma {:induction false} MapAt<T, U>(f: T -> U, s: seq<T>, i: nat)
    requires i < |s|
    ensures Map(f, s)[i] == f(s[i])
  {
    if i > 0 {
      MapAt(f, s[1..], i - 1);
    }
  }

  lemma {:induction false} MapAppend<T, U>(f: T -> U, a: seq<T>, b: seq<T>)
    ensures Map(f, a + b) == Map(f, a) + Map(f, b)
  {
    if a != [] {
      assert (a + b)[0] == a[0] && (a + b)[1..] == a[1..] + b;
      MapAppend(f, a[1..], b);
      assert Map(f, a + b) == [f(a[0])] + (Map(f, a[1..]) + Map(f, b));
    } else {
      assert a + b == b;
    }
  }

  /** Removing the head of `a` and a copy of it from `b` keeps them rearrangements of each other. */
  lemma RemoveMatching<T>(a: seq<T>, b: seq<T>, k: nat)
    requires multiset(a) == multiset(b) && a != [] && k < |b| && b[k] == a[0]
    ensures multiset(a[1..]) == multiset(b[..k] + b[k + 1..])
  {
    var x := a[0];
    assert a == [x] + a[1..];
    assert multiset(a[1..]) == multiset(a) - multiset{x};
    assert b == b[..k] + [x] + b[k + 1..];
    assert multiset(b[..k] + b[k + 1..]) == multiset(b) - multiset{x};
  }

  /** Mapping two rearrangements of the same list gives rearrangements of the same list. */
  lemma {:induction false} MapPermutation<T, U>(f: T -> U, a: seq<T>, b: seq<T>)
    requires multiset(a) == multiset(b)
    ensures multiset(Map(f, a)) == multiset(Map(f, b))
  {
    if a != [] {
      var x := a[0];
      assert x in multiset(b);
      var k :| 0 <= k < |b| && b[k] == x;
      var a', b1, b2 := a[1..], b[..k], b[k + 1..];
      RemoveMatching(a, b, k);
      MapPermutation(f, a', b1 + b2);
      assert b == b1 + [x] + b2;
      MapAppend(f, b1 + [x], b2);
      MapAppend(f, b1, [x]);
      MapAppend(f, b1, b2);
      var l1, l2, fx := Map(f, b1), Map(f, b2), f(x);
      assert Map(f, [x]) == [fx];
      assert Map(f, b) == l1 + [fx] + l2;
      assert Map(f, b1 + b2) == l1 + l2;
      assert multiset(Map(f, b)) == multiset(l1) + multiset{fx} + multiset(l2);
      assert Map(f, a) == [fx] + Map(f, a');
      assert multiset(Map(f, a)) == multiset{fx} + multiset(Map(f, a'));
    }
  }
}
