/** A stable sort into non-increasing key order: the behaviour of Python's
    `list.sort(key=..., reverse=True)`, which keeps equal-key elements in
    their original relative order. */
module StableSort {
  import opened Seqs

  /** Keys never increase from left to right. */
  ghost predicate SortedDesc<T>(s: seq<T>, key: T -> real)
  {
    forall i, j :: 0 <= i < j < |s| ==> key(s[i]) >= key(s[j])
  }

  /** The elements of `s` whose key is `k`, in their order in `s`. Two
      sequences with the same key classes for every `k` agree on how ties
      are ordered. */
  function KeyClass<T(!new)>(s: seq<T>, key: T -> real, k: real): seq<T>
  {
    Filter(s, (x: T) => key(x) == k)
  }

  /** Inserts `x` in front of the first element whose key is not greater
      than its own, so `x` lands before every element of equal key. */
  function Insert<T(!new)>(x: T, s: seq<T>, key: T -> real): (r: seq<T>)
    ensures multiset(r) == multiset(s) + multiset{x}
  {
    if |s| == 0 || key(s[0]) <= key(x) then [x] + s
    else
      var rest := Insert(x, s[1..], key);
      assert s == [s[0]] + s[1..];
      [s[0]] + rest
  }

  /** Inserting into a non-increasing sequence keeps it non-increasing. */
  lemma {:induction false} InsertSorted<T(!new)>(x: T, s: seq<T>, key: T -> real)
    requires SortedDesc(s, key)
    ensures SortedDesc(Insert(x, s, key), key)
    decreases |s|
  {
    if |s| > 0 && key(s[0]) > key(x) {
      InsertSorted(x, s[1..], key);
      var rest := Insert(x, s[1..], key);
      assert multiset(rest) == multiset(s[1..]) + multiset{x};
      forall i | 0 <= i < |rest|
        ensures key(rest[i]) <= key(s[0])
      {
        assert rest[i] in multiset(rest);
        if rest[i] != x {
          assert rest[i] in s[1..];
        }
      }
    }
  }

  /** Unfolds `KeyClass` over a sequence with a known first element. */
  lemma KeyClassCons<T(!new)>(x: T, s: seq<T>, key: T -> real, k: real)
    ensures KeyClass([x] + s, key, k) == if key(x) == k then [x] + KeyClass(s, key, k) else KeyClass(s, key, k)
  {
    assert ([x] + s)[0] == x;
    assert ([x] + s)[1..] == s;
  }

  /** A key class holds exactly the elements of `s` that have that key. */
  lemma {:induction false} KeyClassMembers<T(!new)>(s: seq<T>, key: T -> real, k: real)
    ensures forall x :: x in KeyClass(s, key, k) <==> x in s && key(x) == k
    decreases |s|
  {
    if |s| > 0 {
      KeyClassMembers(s[1..], key, k);
      KeyClassCons(s[0], s[1..], key, k);
      assert s == [s[0]] + s[1..];
    }
  }

  /** The first element of a non-empty sequence heads its own key class. */
  lemma HeadOfKeyClass<T(!new)>(s: seq<T>, key: T -> real)
    requires |s| > 0
    ensures KeyClass(s, key, key(s[0])) == [s[0]] + KeyClass(s[1..], key, key(s[0]))
  {
    KeyClassCons(s[0], s[1..], key, key(s[0]));
    assert s == [s[0]] + s[1..];
  }

  /** `Insert` puts `x` ahead of every element of equal key and leaves the
      order of each key class of `s` alone. */
  lemma {:induction false} InsertKeyClass<T(!new)>(x: T, s: seq<T>, key: T -> real, k: real)
    ensures KeyClass(Insert(x, s, key), key, k) == if key(x) == k then [x] + KeyClass(s, key, k) else KeyClass(s, key, k)
    decreases |s|
  {
    if |s| == 0 || key(s[0]) <= key(x) {
      KeyClassCons(x, s, key, k);
    } else {
      InsertKeyClass(x, s[1..], key, k);
      KeyClassCons(s[0], Insert(x, s[1..], key), key, k);
      KeyClassCons(s[0], s[1..], key, k);
      assert s == [s[0]] + s[1..];
      if key(x) == k {
        assert key(s[0]) != k;
      }
    }
  }

  /** Sorts `s` by non-increasing key, keeping ties in input order. */
  function Sort<T(!new)>(s: seq<T>, key: T -> real): (r: seq<T>)
    ensures multiset(r) == multiset(s)
    ensures SortedDesc(r, key)
  {
    if |s| == 0 then []
    else
      assert s == [s[0]] + s[1..];
      var rest := Sort(s[1..], key);
      InsertSorted(s[0], rest, key);
      Insert(s[0], rest, key)
  }

  /** Stability: every class of equal keys appears in the output in exactly
      the order it had in the input. */
  lemma {:induction false} SortIsStable<T(!new)>(s: seq<T>, key: T -> real, k: real)
    ensures KeyClass(Sort(s, key), key, k) == KeyClass(s, key, k)
    decreases |s|
  {
    if |s| > 0 {
      SortIsStable(s[1..], key, k);
      InsertKeyClass(s[0], Sort(s[1..], key), key, k);
      KeyClassCons(s[0], s[1..], key, k);
      assert s == [s[0]] + s[1..];
    }
  }

  /** A sorted arrangement is pinned down by its key classes: two
      non-increasing sequences that order every tie the same way are equal.
      So any stable descending sort of the input is `Sort`'s result. */
  lemma {:induction false} SortedUnique<T(!new)>(a: seq<T>, b: seq<T>, key: T -> real)
    requires SortedDesc(a, key) && SortedDesc(b, key)
    requires forall k :: KeyClass(a, key, k) == KeyClass(b, key, k)
    ensures a == b
    decreases |a|
  {
    if |a| == 0 {
      if |b| > 0 {
        HeadOfKeyClass(b, key);
        assert false;
      }
    } else if |b| == 0 {
      HeadOfKeyClass(a, key);
      assert false;
    } else {
      HeadKeyIsMax(a, b, key);
      HeadKeyIsMax(b, a, key);
      TailsAgree(a, b, key);
      SortedUnique(a[1..], b[1..], key);
      assert a == [a[0]] + a[1..];
      assert b == [b[0]] + b[1..];
    }
  }

  /** Two sequences with equal key classes and equal first keys have the
      same first element, and their tails again have equal key classes. */
  lemma TailsAgree<T(!new)>(a: seq<T>, b: seq<T>, key: T -> real)
    requires |a| > 0 && |b| > 0 && key(a[0]) == key(b[0])
    requires forall k :: KeyClass(a, key, k) == KeyClass(b, key, k)
    ensures a[0] == b[0]
    ensures forall k :: KeyClass(a[1..], key, k) == KeyClass(b[1..], key, k)
  {
    var ka := key(a[0]);
    HeadOfKeyClass(a, key);
    HeadOfKeyClass(b, key);
    assert KeyClass(a, key, ka)[0] == a[0];
    assert KeyClass(b, key, ka)[0] == b[0];
    forall k
      ensures KeyClass(a[1..], key, k) == KeyClass(b[1..], key, k)
    {
      assert a == [a[0]] + a[1..];
      assert b == [b[0]] + b[1..];
      KeyClassCons(a[0], a[1..], key, k);
      KeyClassCons(b[0], b[1..], key, k);
      assert KeyClass(a, key, k) == KeyClass(b, key, k);
      if k == ka {
        assert KeyClass(a[1..], key, k) == KeyClass(a, key, k)[1..];
        assert KeyClass(b[1..], key, k) == KeyClass(b, key, k)[1..];
      }
    }
  }

  /** When `b` has the same key classes as the sorted `a`, no key in `b`
      exceeds the key of `a`'s first element. */
  lemma HeadKeyIsMax<T(!new)>(a: seq<T>, b: seq<T>, key: T -> real)
    requires SortedDesc(a, key)
    requires |a| > 0 && |b| > 0
    requires forall k :: KeyClass(a, key, k) == KeyClass(b, key, k)
    ensures key(b[0]) <= key(a[0])
  {
    var kb := key(b[0]);
    HeadOfKeyClass(b, key);
    assert b[0] in KeyClass(a, key, kb);
    KeyClassMembers(a, key, kb);
    assert b[0] in a;
  }
}
