/** Orders and a stable sort. A `(T, T) -> bool` relation `le` reads
    "may come before"; the store's `orderBy` clauses and the client's sort
    comparator are both expressed as such relations. */
module Sorting {
  import opened Options
  import opened Seqs

  /** `le` is total and transitive: a key order in which ties are allowed. */
  ghost predicate TotalPreorder<T(!new)>(le: (T, T) -> bool) {
    && (forall a, b :: le(a, b) || le(b, a))
    && (forall a, b, c :: le(a, b) && le(b, c) ==> le(a, c))
  }

  ghost predicate SortedBy<T>(s: seq<T>, le: (T, T) -> bool) {
    forall i, j :: 0 <= i < j < |s| ==> le(s[i], s[j])
  }

  /** Orders `T` by a key of type `K`. */
  function On<T, K>(le: (K, K) -> bool, key: T -> K): (T, T) -> bool {
    (a: T, b: T) => le(key(a), key(b))
  }

  /** Lexicographic combination: `first`, and `second` among ties of `first`. */
  function Then<T>(first: (T, T) -> bool, second: (T, T) -> bool): (T, T) -> bool {
    (a: T, b: T) => first(a, b) && (first(b, a) ==> second(a, b))
  }

  /** The reverse order (`desc` in an `orderBy` clause). */
  function Desc<T>(le: (T, T) -> bool): (T, T) -> bool {
    (a: T, b: T) => le(b, a)
  }

  function IntLe(a: int, b: int): bool { a <= b }

  /** `false` before `true`. */
  function BoolLe(a: bool, b: bool): bool { !a || b }

  /** Ascending with `null` after every value, the store's default for
      nullable columns. */
  function NullsLast<K>(le: (K, K) -> bool): (Option<K>, Option<K>) -> bool {
    (a: Option<K>, b: Option<K>) => if a.None? then b.None? else b.None? || le(a.value, b.value)
  }

  lemma NullsLastPreorder<K(!new)>(le: (K, K) -> bool)
    requires TotalPreorder(le)
    ensures TotalPreorder(NullsLast(le))
  {
  }

  lemma OnPreorder<T(!new), K(!new)>(le: (K, K) -> bool, key: T -> K)
    requires TotalPreorder(le)
    ensures TotalPreorder(On(le, key))
  {
    var r := On(le, key);
    forall a, b, c | r(a, b) && r(b, c) ensures r(a, c) {
      assert le(key(a), key(b)) && le(key(b), key(c));
    }
    forall a, b ensures r(a, b) || r(b, a) {
      assert le(key(a), key(b)) || le(key(b), key(a));
    }
  }

  lemma ThenPreorder<T(!new)>(first: (T, T) -> bool, second: (T, T) -> bool)
    requires TotalPreorder(first) && TotalPreorder(second)
    ensures TotalPreorder(Then(first, second))
  {
  }

  lemma DescPreorder<T(!new)>(le: (T, T) -> bool)
    requires TotalPreorder(le)
    ensures TotalPreorder(Desc(le))
  {
  }

  /** Inserts `x` in front of the first element it may precede. */
  function Insert<T>(x: T, s: seq<T>, le: (T, T) -> bool): (r: seq<T>)
    ensures multiset(r) == multiset(s) + multiset{x}
    ensures |r| == |s| + 1
  {
    if s == [] then [x]
    else if le(x, s[0]) then [x] + s
    else
      assert s == [s[0]] + s[1..];
      [s[0]] + Insert(x, s[1..], le)
  }

  /** Insertion sort. An element is inserted in front of every element it
      ties with, and it came before all of them in the input, so the sort
      is stable. */
  function Sort<T>(s: seq<T>, le: (T, T) -> bool): (r: seq<T>)
    ensures multiset(r) == multiset(s)
    ensures |r| == |s|
  {
    if s == [] then []
    else
      assert s == [s[0]] + s[1..];
      Insert(s[0], Sort(s[1..], le), le)
  }

  lemma {:induction false} InsertSorted<T(!new)>(x: T, s: seq<T>, le: (T, T) -> bool)
    requires TotalPreorder(le)
    requires SortedBy(s, le)
    ensures SortedBy(Insert(x, s, le), le)
  {
    if s != [] && !le(x, s[0]) {
      InsertSorted(x, s[1..], le);
      var r := Insert(x, s, le);
      forall j | 0 < j < |r| ensures le(s[0], r[j]) {
        assert r[j] in multiset(s[1..]) + multiset{x};
        if r[j] == x {
        } else {
          assert r[j] in s[1..];
          var k :| 0 <= k < |s[1..]| && s[1..][k] == r[j];
          assert s[k + 1] == r[j];
        }
      }
    }
  }

  /** The sort puts its input in order. */
  lemma {:induction false} SortSorted<T(!new)>(s: seq<T>, le: (T, T) -> bool)
    requires TotalPreorder(le)
    ensures SortedBy(Sort(s, le), le)
  {
    if s != [] {
      SortSorted(s[1..], le);
      InsertSorted(s[0], Sort(s[1..], le), le);
    }
  }

  lemma {:induction false} InsertStable<T(!new)>(x: T, s: seq<T>, le: (T, T) -> bool, p: T -> bool)
    requires forall a, b :: p(a) && p(b) ==> le(a, b)
    ensures Filter(Insert(x, s, le), p) == Filter([x] + s, p)
  {
    if s == [] {
    } else if le(x, s[0]) {
    } else {
      InsertStable(x, s[1..], le, p);
      var tail := Insert(x, s[1..], le);
      assert Insert(x, s, le) == [s[0]] + tail;
      assert ([x] + s)[1..] == s;
      assert ([s[0]] + tail)[1..] == tail;
      assert s == [s[0]] + s[1..];
      assert ([x] + s[1..])[1..] == s[1..];
      if p(x) {
        assert !p(s[0]);
      }
    }
  }

  /** Stability: on any set of pairwise-tied elements (`p`), the sorted
      output lists them in exactly their input order. */
  lemma {:induction false} SortStable<T(!new)>(s: seq<T>, le: (T, T) -> bool, p: T -> bool)
    requires forall a, b :: p(a) && p(b) ==> le(a, b)
    ensures Filter(Sort(s, le), p) == Filter(s, p)
  {
    if s != [] {
      SortStable(s[1..], le, p);
      InsertStable(s[0], Sort(s[1..], le), le, p);
      assert s == [s[0]] + s[1..];
      assert ([s[0]] + Sort(s[1..], le))[1..] == Sort(s[1..], le);
    }
  }
}
