/**
 * Array helpers the source uses on lists of records: `filter`, `findIndex`,
 * and `sort` with a `localeCompare` comparator.  JavaScript's `Array.prototype.sort`
 * is stable, so the sort here is a stable insertion sort; `localeCompare` on the
 * ISO-8601 timestamps and date names the source compares is lexicographic order.
 */
module Lists {

  /** `s.filter(p)`. */
  function Filter<T>(s: seq<T>, p: T -> bool): (r: seq<T>)
    ensures |r| <= |s|
    ensures forall i :: 0 <= i < |r| ==> r[i] in s && p(r[i])
    ensures forall i :: 0 <= i < |s| && p(s[i]) ==> s[i] in r
  {
    if |s| == 0 then []
    else if p(s[0]) then [s[0]] + Filter(s[1..], p)
    else Filter(s[1..], p)
  }

  /** Filtering a concatenation filters each half. */
  lemma {:induction false} FilterAppend<T>(a: seq<T>, b: seq<T>, p: T -> bool)
    ensures Filter(a + b, p) == Filter(a, p) + Filter(b, p)
    decreases |a|
  {
    if |a| > 0 {
      assert (a + b)[1..] == a[1..] + b;
      FilterAppend(a[1..], b, p);
    } else {
      assert a + b == b;
    }
  }

  /** Nothing passes the filter when no element satisfies `p`. */
  lemma {:induction false} FilterNone<T>(s: seq<T>, p: T -> bool)
    requires forall x :: x in s ==> !p(x)
    ensures Filter(s, p) == []
  {
    if |s| > 0 {
      assert s[0] in s;
      FilterNone(s[1..], p);
    }
  }

  /** `s.findIndex(p)`: the first index whose element satisfies `p`, or -1. */
  function FindIndex<T>(s: seq<T>, p: T -> bool): (r: int)
    ensures -1 <= r < |s|
    ensures r >= 0 ==> p(s[r]) && forall j :: 0 <= j < r ==> !p(s[j])
    ensures r == -1 ==> forall j :: 0 <= j < |s| ==> !p(s[j])
  {
    if |s| == 0 then -1
    else if p(s[0]) then 0
    else var k := FindIndex(s[1..], p); if k < 0 then -1 else k + 1
  }
}

module Order {
  import opened Lists

  /** `a.localeCompare(b) < 0`, taken as lexicographic order on code points. */
  predicate Lt(a: string, b: string)
    decreases |a|
  {
    if |a| == 0 then |b| > 0
    else if |b| == 0 then false
    else if a[0] != b[0] then a[0] < b[0]
    else Lt(a[1..], b[1..])
  }

  /** `a.localeCompare(b) <= 0`. */
  predicate Le(a: string, b: string) {
    !Lt(b, a)
  }

  lemma {:induction false} LtIrreflexive(a: string)
    ensures !Lt(a, a)
    decreases |a|
  {
    if |a| > 0 { LtIrreflexive(a[1..]); }
  }

  lemma {:induction false} LtTransitive(a: string, b: string, c: string)
    requires Lt(a, b) && Lt(b, c)
    ensures Lt(a, c)
    decreases |a|
  {
    if |a| > 0 && |b| > 0 && |c| > 0 && a[0] == b[0] && b[0] == c[0] {
      LtTransitive(a[1..], b[1..], c[1..]);
    }
  }

  lemma {:induction false} LtTotal(a: string, b: string)
    ensures a == b || Lt(a, b) || Lt(b, a)
    decreases |a|
  {
    if |a| > 0 && |b| > 0 && a[0] == b[0] {
      LtTotal(a[1..], b[1..]);
      if a[1..] == b[1..] {
        assert a == [a[0]] + a[1..] && b == [b[0]] + b[1..];
      }
    }
  }

  lemma LtAsymmetric(a: string, b: string)
    ensures Lt(a, b) ==> !Lt(b, a)
  {
    if Lt(a, b) && Lt(b, a) {
      LtTransitive(a, b, a);
      LtIrreflexive(a);
    }
  }

  lemma LeTransitive(a: string, b: string, c: string)
    requires Le(a, b) && Le(b, c)
    ensures Le(a, c)
  {
    LtTotal(b, c);
    if Lt(c, a) {
      if Lt(b, c) { LtTransitive(b, c, a); }
    }
  }

  /**
   * The comparator `(x, y) => key(x).localeCompare(key(y))` (or its reverse when `desc`)
   * says `x` sorts strictly before `y`.
   */
  predicate Before<T>(key: T -> string, desc: bool, x: T, y: T) {
    if desc then Lt(key(y), key(x)) else Lt(key(x), key(y))
  }

  lemma NotBeforeTransitive<T>(key: T -> string, desc: bool, x: T, y: T, z: T)
    requires !Before(key, desc, y, x) && !Before(key, desc, z, y)
    ensures !Before(key, desc, z, x)
  {
    if desc { LeTransitive(key(z), key(y), key(x)); }
    else { LeTransitive(key(x), key(y), key(z)); }
  }

  lemma BeforeTotal<T>(key: T -> string, desc: bool, x: T, y: T)
    ensures Before(key, desc, x, y) ==> !Before(key, desc, y, x)
  {
    LtAsymmetric(key(x), key(y));
  }

  predicate Sorted<T>(s: seq<T>, key: T -> string, desc: bool) {
    forall i, j :: 0 <= i < j < |s| ==> !Before(key, desc, s[j], s[i])
  }

  /** Inserts `x` before the first element that does not sort strictly before it. */
  function Insert<T>(x: T, s: seq<T>, key: T -> string, desc: bool): (r: seq<T>)
    ensures multiset(r) == multiset(s) + multiset{x}
    ensures |r| == |s| + 1
  {
    if |s| == 0 || !Before(key, desc, s[0], x) then [x] + s
    else
      assert s == [s[0]] + s[1..];
      [s[0]] + Insert(x, s[1..], key, desc)
  }

  /**
   * A stable sort: `SortBy(s, key, desc)` is `s.slice().sort(cmp)` for the comparator
   * `key(a).localeCompare(key(b))` (`desc` = false) or `key(b).localeCompare(key(a))` (`desc` = true).
   */
  function SortBy<T>(s: seq<T>, key: T -> string, desc: bool): (r: seq<T>)
    ensures multiset(r) == multiset(s)
    ensures |r| == |s|
  {
    if |s| == 0 then []
    else
      assert s == [s[0]] + s[1..];
      Insert(s[0], SortBy(s[1..], key, desc), key, desc)
  }

  lemma {:induction false} InsertSorted<T>(x: T, s: seq<T>, key: T -> string, desc: bool)
    requires Sorted(s, key, desc)
    ensures Sorted(Insert(x, s, key, desc), key, desc)
    decreases |s|
  {
    var r := Insert(x, s, key, desc);
    if |s| == 0 {
    } else if !Before(key, desc, s[0], x) {
      forall i, j | 0 <= i < j < |r| ensures !Before(key, desc, r[j], r[i]) {
        if i == 0 && j > 1 {
          NotBeforeTransitive(key, desc, x, s[0], s[j - 1]);
        }
      }
    } else {
      InsertSorted(x, s[1..], key, desc);
      var t := Insert(x, s[1..], key, desc);
      assert r == [s[0]] + t;
      forall i, j | 0 <= i < j < |r| ensures !Before(key, desc, r[j], r[i]) {
        if i == 0 {
          assert r[j] in multiset(t);
          assert r[j] in multiset(s[1..]) + multiset{x};
          if r[j] == x {
            BeforeTotal(key, desc, s[0], x);
          } else {
            assert r[j] in s[1..];
            var k :| 0 <= k < |s[1..]| && s[1..][k] == r[j];
            assert s[k + 1] == r[j];
          }
        }
      }
    }
  }

  lemma {:induction false} SortBySorted<T>(s: seq<T>, key: T -> string, desc: bool)
    ensures Sorted(SortBy(s, key, desc), key, desc)
    decreases |s|
  {
    if |s| > 0 {
      SortBySorted(s[1..], key, desc);
      InsertSorted(s[0], SortBy(s[1..], key, desc), key, desc);
    }
  }

  /** Sorting keeps exactly the same elements. */
  lemma SortByMembers<T>(s: seq<T>, key: T -> string, desc: bool)
    ensures forall x :: x in SortBy(s, key, desc) <==> x in s
  {
    var r := SortBy(s, key, desc);
    forall x ensures x in r <==> x in s {
      assert x in r <==> x in multiset(r);
      assert x in s <==> x in multiset(s);
    }
  }

  /** Inserting `x` adds it to the elements with its key and leaves the others in place. */
  lemma {:induction false} InsertKeyClass<T>(x: T, s: seq<T>, key: T -> string, desc: bool, v: string)
    ensures Filter(Insert(x, s, key, desc), (y: T) => key(y) == v) ==
      if key(x) == v then [x] + Filter(s, (y: T) => key(y) == v) else Filter(s, (y: T) => key(y) == v)
    decreases |s|
  {
    var p := (y: T) => key(y) == v;
    if |s| == 0 || !Before(key, desc, s[0], x) {
      assert ([x] + s)[1..] == s;
    } else {
      InsertKeyClass(x, s[1..], key, desc, v);
      assert ([s[0]] + Insert(x, s[1..], key, desc))[1..] == Insert(x, s[1..], key, desc);
      if key(x) == v {
        LtIrreflexive(key(x));
        assert !p(s[0]);
      }
    }
  }

  /**
   * The sort is stable: the elements sharing any one key keep their input order.
   */
  lemma {:induction false} SortByStable<T>(s: seq<T>, key: T -> string, desc: bool, v: string)
    ensures Filter(SortBy(s, key, desc), (y: T) => key(y) == v) == Filter(s, (y: T) => key(y) == v)
    decreases |s|
  {
    if |s| > 0 {
      SortByStable(s[1..], key, desc, v);
      InsertKeyClass(s[0], SortBy(s[1..], key, desc), key, desc, v);
    }
  }

  /**
   * The head of the sort is the first element of the input, in input order, that no
   * element sorts strictly before: every element ahead of it in `s` sorts strictly after it.
   */
  lemma {:induction false} SortByHeadFirst<T>(s: seq<T>, key: T -> string, desc: bool)
    requires |s| > 0
    ensures exists i ::
      && 0 <= i < |s| && s[i] == SortBy(s, key, desc)[0]
      && forall j :: 0 <= j < i ==> Before(key, desc, SortBy(s, key, desc)[0], s[j])
    decreases |s|
  {
    var t := SortBy(s[1..], key, desc);
    if |s| == 1 || !Before(key, desc, t[0], s[0]) {
      assert SortBy(s, key, desc)[0] == s[0];
    } else {
      SortByHeadFirst(s[1..], key, desc);
      var m :| 0 <= m < |s[1..]| && s[1..][m] == t[0] && forall j :: 0 <= j < m ==> Before(key, desc, t[0], s[1..][j]);
      assert SortBy(s, key, desc)[0] == t[0];
      assert s[m + 1] == t[0];
      forall j | 0 <= j < m + 1 ensures Before(key, desc, t[0], s[j]) {
        if j > 0 { assert s[j] == s[1..][j - 1]; }
      }
    }
  }

  /**
   * The head of the sort of the elements passing `p` sits in `s` after only elements
   * passing `p` that sort strictly after it: among ties the first in `s` wins.
   */
  lemma {:induction false} SortFilterHeadFirst<T>(s: seq<T>, p: T -> bool, key: T -> string, desc: bool)
    returns (n: int)
    requires |Filter(s, p)| > 0
    ensures 0 <= n < |s| && s[n] == SortBy(Filter(s, p), key, desc)[0] && p(s[n])
    ensures forall j :: 0 <= j < n && p(s[j]) ==> Before(key, desc, s[n], s[j])
    decreases |s|
  {
    var f := Filter(s[1..], p);
    if !p(s[0]) {
      assert Filter(s, p) == f;
      var m := SortFilterHeadFirst(s[1..], p, key, desc);
      n := m + 1;
      ShiftBefore(s, p, key, desc, m);
    } else {
      assert Filter(s, p) == [s[0]] + f;
      assert ([s[0]] + f)[1..] == f;
      if |f| == 0 || !Before(key, desc, SortBy(f, key, desc)[0], s[0]) {
        n := 0;
      } else {
        var m := SortFilterHeadFirst(s[1..], p, key, desc);
        n := m + 1;
        ShiftBefore(s, p, key, desc, m);
      }
    }
  }

  /** One more element at the front of `s`, sorting after `s[m + 1]` when it passes `p`. */
  lemma ShiftBefore<T>(s: seq<T>, p: T -> bool, key: T -> string, desc: bool, m: int)
    requires 0 <= m < |s| - 1
    requires forall j :: 0 <= j < m && p(s[1..][j]) ==> Before(key, desc, s[1..][m], s[1..][j])
    requires p(s[0]) ==> Before(key, desc, s[m + 1], s[0])
    ensures s[m + 1] == s[1..][m]
    ensures forall j :: 0 <= j < m + 1 && p(s[j]) ==> Before(key, desc, s[m + 1], s[j])
  {
    forall j | 0 < j < m + 1 && p(s[j]) ensures Before(key, desc, s[m + 1], s[j]) {
      assert s[j] == s[1..][j - 1];
    }
  }

  /** The head of a sorted list is extreme: no element of the input sorts strictly before it. */
  lemma SortByHeadExtreme<T>(s: seq<T>, key: T -> string, desc: bool)
    requires |s| > 0
    ensures forall x :: x in s ==> !Before(key, desc, x, SortBy(s, key, desc)[0])
  {
    var r := SortBy(s, key, desc);
    SortBySorted(s, key, desc);
    SortByMembers(s, key, desc);
    forall x | x in s ensures !Before(key, desc, x, r[0]) {
      var k :| 0 <= k < |r| && r[k] == x;
      if k > 0 {
        assert !Before(key, desc, r[k], r[0]);
      } else {
        if desc { LtIrreflexive(key(x)); } else { LtIrreflexive(key(x)); }
      }
    }
  }
}
