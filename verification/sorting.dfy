/**
 * A stable sort by an integer key: the `Array.prototype.sort` with comparator
 * `(a, b) => key(a) - key(b)` that the list store uses. Stability (ties keep
 * their input order) is stated as: for every key value, the elements carrying
 * that key appear in the output in the same order as in the input.
 */
module Sorting {
  /** Keys are non-decreasing along `s`. */
  predicate SortedBy<T>(s: seq<T>, key: T -> int) {
    forall i, j :: 0 <= i < j < |s| ==> key(s[i]) <= key(s[j])
  }

  /** The elements of `s` whose key is `k`, in the order of `s`. */
  function KeyClass<T>(s: seq<T>, key: T -> int, k: int): seq<T> {
    if |s| == 0 then []
    else (if key(s[0]) == k then [s[0]] else []) + KeyClass(s[1..], key, k)
  }

  /** The key class of a concatenation is the concatenation of the key classes. */
  lemma {:induction false} KeyClassAppend<T>(a: seq<T>, b: seq<T>, key: T -> int, k: int)
    ensures KeyClass(a + b, key, k) == KeyClass(a, key, k) + KeyClass(b, key, k)
  {
    if |a| == 0 {
      assert a + b == b;
    } else {
      var ab := a + b;
      var h := if key(a[0]) == k then [a[0]] else [];
      var ca, cb := KeyClass(a[1..], key, k), KeyClass(b, key, k);
      assert ab[0] == a[0];
      assert ab[1..] == a[1..] + b;
      KeyClassAppend(a[1..], b, key, k);
      assert KeyClass(ab, key, k) == h + (ca + cb);
      assert KeyClass(a, key, k) == h + ca;
      assert h + (ca + cb) == (h + ca) + cb;
    }
  }

  /** Prepending an element no larger than the head keeps a sequence sorted. */
  lemma ConsSorted<T>(a: T, t: seq<T>, key: T -> int)
    requires SortedBy(t, key)
    requires |t| == 0 || key(a) <= key(t[0])
    ensures SortedBy([a] + t, key)
  {
    var s := [a] + t;
    forall i, j | 0 <= i < j < |s| ensures key(s[i]) <= key(s[j]) {
      if i == 0 {
        assert s[j] == t[j - 1];
        assert key(t[0]) <= key(t[j - 1]);
      } else {
        assert s[i] == t[i - 1] && s[j] == t[j - 1];
      }
    }
  }

  /** Inserts `x` in front of the first element whose key is not smaller than its own. */
  function Insert<T>(x: T, t: seq<T>, key: T -> int): (r: seq<T>)
    ensures |r| == |t| + 1
    ensures multiset(r) == multiset(t) + multiset{x}
    ensures r[0] == x || (|t| > 0 && r[0] == t[0])
  {
    if |t| == 0 then [x]
    else if key(x) <= key(t[0]) then [x] + t
    else
      assert t == [t[0]] + t[1..];
      [t[0]] + Insert(x, t[1..], key)
  }

  /** Inserting into a sorted sequence gives a sorted sequence. */
  lemma {:induction false} InsertSorted<T>(x: T, t: seq<T>, key: T -> int)
    requires SortedBy(t, key)
    ensures SortedBy(Insert(x, t, key), key)
  {
    if |t| == 0 {
    } else if key(x) <= key(t[0]) {
      ConsSorted(x, t, key);
    } else {
      assert SortedBy(t[1..], key);
      InsertSorted(x, t[1..], key);
      var rest := Insert(x, t[1..], key);
      assert |t| > 1 ==> key(t[0]) <= key(t[1]);
      ConsSorted(t[0], rest, key);
    }
  }

  /** Stable insertion sort of `s` by `key`. */
  function Sort<T>(s: seq<T>, key: T -> int): (r: seq<T>)
    ensures SortedBy(r, key)
    ensures multiset(r) == multiset(s)
    ensures forall k :: KeyClass(r, key, k) == KeyClass(s, key, k)
  {
    if |s| == 0 then []
    else
      var tail := Sort(s[1..], key);
      InsertSorted(s[0], tail, key);
      SortStep(s, tail, key);
      assert s == [s[0]] + s[1..];
      assert multiset(s) == multiset{s[0]} + multiset(s[1..]);
      Insert(s[0], tail, key)
  }

  /** One step of `Sort`: inserting the head into the sorted tail keeps every key class of `s`. */
  lemma SortStep<T>(s: seq<T>, tail: seq<T>, key: T -> int)
    requires |s| > 0 && SortedBy(tail, key)
    requires forall k :: KeyClass(tail, key, k) == KeyClass(s[1..], key, k)
    ensures forall k :: KeyClass(Insert(s[0], tail, key), key, k) == KeyClass(s, key, k)
  {
    InsertKeepsClasses(s[0], tail, key);
    assert s == [s[0]] + s[1..];
    forall k ensures KeyClass(Insert(s[0], tail, key), key, k) == KeyClass(s, key, k) {
      KeyClassCons(s[0], tail, key, k);
      KeyClassCons(s[0], s[1..], key, k);
    }
  }

  /** Inserting into a sorted sequence keeps every key class in the order of `[x] + t`. */
  lemma {:induction false} InsertKeepsClasses<T>(x: T, t: seq<T>, key: T -> int)
    requires SortedBy(t, key)
    ensures forall k :: KeyClass(Insert(x, t, key), key, k) == KeyClass([x] + t, key, k)
  {
    if |t| == 0 || key(x) <= key(t[0]) {
    } else {
      assert SortedBy(t[1..], key);
      InsertKeepsClasses(x, t[1..], key);
      forall k ensures KeyClass(Insert(x, t, key), key, k) == KeyClass([x] + t, key, k) {
        InsertStep(x, t, key, k);
      }
    }
  }

  /** The key class of `[a] + b`: `a` (when its key is `k`) followed by the key class of `b`. */
  lemma KeyClassCons<T>(a: T, b: seq<T>, key: T -> int, k: int)
    ensures KeyClass([a] + b, key, k) == Own(a, key, k) + KeyClass(b, key, k)
  {
    assert ([a] + b)[0] == a;
    assert ([a] + b)[1..] == b;
  }

  /** The key-class part contributed by one element. */
  function Own<T>(a: T, key: T -> int, k: int): seq<T> {
    if key(a) == k then [a] else []
  }

  /** When `x` overtakes `t[0]`, the class of the result starts with `t[0]`'s part. */
  lemma InsertOvertakes<T>(x: T, t: seq<T>, key: T -> int, k: int)
    requires |t| > 0 && key(t[0]) < key(x)
    ensures KeyClass(Insert(x, t, key), key, k) == Own(t[0], key, k) + KeyClass(Insert(x, t[1..], key), key, k)
  {
    assert Insert(x, t, key) == [t[0]] + Insert(x, t[1..], key);
    KeyClassCons(t[0], Insert(x, t[1..], key), key, k);
  }

  /** The class of `[x] + t` splits into `x`'s part, `t[0]`'s part and the class of `t[1..]`. */
  lemma ClassOfTwo<T>(x: T, t: seq<T>, key: T -> int, k: int)
    requires |t| > 0
    ensures KeyClass([x] + t, key, k) == Own(x, key, k) + (Own(t[0], key, k) + KeyClass(t[1..], key, k))
  {
    KeyClassCons(x, t, key, k);
    assert t == [t[0]] + t[1..];
    KeyClassCons(t[0], t[1..], key, k);
  }

  /** Two elements with different keys cannot both contribute to one class, so their parts commute. */
  lemma OwnCommute<T>(x: T, y: T, c: seq<T>, key: T -> int, k: int)
    requires key(x) != key(y)
    ensures Own(y, key, k) + (Own(x, key, k) + c) == Own(x, key, k) + (Own(y, key, k) + c)
  {
    if key(y) == k {
      assert Own(x, key, k) == [];
    } else {
      assert Own(y, key, k) == [];
    }
  }

  /** One step of `InsertKeepsClasses`: `x` overtakes `t[0]`, whose key is smaller. */
  lemma InsertStep<T>(x: T, t: seq<T>, key: T -> int, k: int)
    requires |t| > 0 && key(t[0]) < key(x)
    requires KeyClass(Insert(x, t[1..], key), key, k) == KeyClass([x] + t[1..], key, k)
    ensures KeyClass(Insert(x, t, key), key, k) == KeyClass([x] + t, key, k)
  {
    InsertOvertakes(x, t, key, k);
    KeyClassCons(x, t[1..], key, k);
    ClassOfTwo(x, t, key, k);
    OwnCommute(x, t[0], KeyClass(t[1..], key, k), key, k);
  }

  /** Sorting a sequence that is already sorted returns it unchanged. */
  lemma {:induction false} SortOfSorted<T>(s: seq<T>, key: T -> int)
    requires SortedBy(s, key)
    ensures Sort(s, key) == s
  {
    if |s| > 0 {
      assert SortedBy(s[1..], key);
      SortOfSorted(s[1..], key);
      assert s == [s[0]] + s[1..];
    }
  }
}
