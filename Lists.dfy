/**
  Sequence operations shared by the transaction list and the settings editor:
  JavaScript's `Array.prototype.filter` (here `Keep`), order-preserving
  subsequences, and the first-seen key order of a dictionary that is filled
  one element at a time.
 */
module Lists {

  /** True iff `a` can be obtained from `b` by deleting elements (order kept). */
  predicate IsSubseq<T(==)>(a: seq<T>, b: seq<T>)
    decreases |b|
  {
    a == [] || (b != [] && ((a[0] == b[0] && IsSubseq(a[1..], b[1..])) || IsSubseq(a, b[1..])))
  }

  /** No value occurs twice. */
  predicate Distinct<K(==)>(ks: seq<K>)
  {
    forall i, j :: 0 <= i < j < |ks| ==> ks[i] != ks[j]
  }

  /** The elements of `s` that satisfy `p`, in their original order. */
  function Keep<T>(s: seq<T>, p: T -> bool): seq<T>
  {
    if s == [] then [] else (if p(s[0]) then [s[0]] else []) + Keep(s[1..], p)
  }

  /** The predicate "the key of x is k". */
  function HasKey<T, K(==)>(key: T -> K, k: K): T -> bool
  {
    x => key(x) == k
  }

  /** The predicate "the key of x is one of ks". */
  function KeyIn<T, K(==)>(key: T -> K, ks: seq<K>): T -> bool
  {
    x => key(x) in ks
  }

  /**
    The distinct keys of the elements of `s`, in the order in which a
    dictionary filled by walking `s` from the front first receives them.
   */
  function Keys<T, K(==)>(s: seq<T>, key: T -> K): seq<K>
  {
    if s == [] then []
    else
      var ks := Keys(s[..|s| - 1], key);
      if key(s[|s| - 1]) in ks then ks else ks + [key(s[|s| - 1])]
  }

  /** The dictionary from each key to the elements of `s` with that key, in their order. */
  function Groups<T, K(==)>(s: seq<T>, key: T -> K): map<K, seq<T>>
  {
    map k | k in Keys(s, key) :: Keep(s, HasKey(key, k))
  }

  /** The groups of `g` for the keys `ks`, laid end to end. */
  function Concat<K, T>(g: map<K, seq<T>>, ks: seq<K>): seq<T>
    requires forall k :: k in ks ==> k in g
  {
    if ks == [] then [] else g[ks[0]] + Concat(g, ks[1..])
  }

  /** `Keep` keeps every copy of a satisfying element and no copy of any other. */
  lemma {:induction false} KeepCount<T>(s: seq<T>, p: T -> bool, x: T)
    ensures multiset(Keep(s, p))[x] == if p(x) then multiset(s)[x] else 0
  {
    if s != [] {
      KeepCount(s[1..], p, x);
      assert s == [s[0]] + s[1..];
    }
  }

  /** `Keep` preserves the relative order of what it keeps. */
  lemma {:induction false} KeepIsSubseq<T>(s: seq<T>, p: T -> bool)
    ensures IsSubseq(Keep(s, p), s)
  {
    if s != [] {
      KeepIsSubseq(s[1..], p);
      if p(s[0]) {
        assert Keep(s, p) == [s[0]] + Keep(s[1..], p);
        assert Keep(s, p)[1..] == Keep(s[1..], p);
      } else {
        assert Keep(s, p) == Keep(s[1..], p);
      }
    }
  }

  /** Keeping by `p` and then by `q` is keeping by their conjunction. */
  lemma {:induction false} KeepKeep<T>(s: seq<T>, p: T -> bool, q: T -> bool, r: T -> bool)
    requires forall x :: r(x) <==> p(x) && q(x)
    ensures Keep(Keep(s, p), q) == Keep(s, r)
  {
    if s != [] {
      KeepKeep(s[1..], p, q, r);
      if p(s[0]) {
        assert Keep(s, p) == [s[0]] + Keep(s[1..], p);
        assert Keep(s, p)[1..] == Keep(s[1..], p);
      } else {
        assert Keep(s, p) == Keep(s[1..], p);
      }
    }
  }

  /** `Keep` distributes over concatenation. */
  lemma {:induction false} KeepAppend<T>(a: seq<T>, b: seq<T>, p: T -> bool)
    ensures Keep(a + b, p) == Keep(a, p) + Keep(b, p)
  {
    if a == [] {
      assert a + b == b;
    } else {
      var head := if p(a[0]) then [a[0]] else [];
      assert (a + b)[0] == a[0] && (a + b)[1..] == a[1..] + b;
      assert Keep(a + b, p) == head + Keep(a[1..] + b, p);
      KeepAppend(a[1..], b, p);
      assert Keep(a, p) == head + Keep(a[1..], p);
    }
  }

  /** When every element satisfies `p`, nothing is dropped. */
  lemma {:induction false} KeepAll<T>(s: seq<T>, p: T -> bool)
    requires forall x :: x in s ==> p(x)
    ensures Keep(s, p) == s
  {
    if s != [] {
      assert forall x :: x in s[1..] ==> x in s;
      KeepAll(s[1..], p);
    }
  }

  /** When no element satisfies `p`, nothing is kept. */
  lemma {:induction false} KeepNone<T>(s: seq<T>, p: T -> bool)
    requires forall x :: x in s ==> !p(x)
    ensures Keep(s, p) == []
  {
    if s != [] {
      assert forall x :: x in s[1..] ==> x in s;
      KeepNone(s[1..], p);
    }
  }

  /**
    The keys are distinct, and they are exactly the keys of the elements of
    `s`: every element's key is among them and each of them is some element's key.
   */
  lemma {:induction false} KeysSpec<T, K>(s: seq<T>, key: T -> K)
    ensures Distinct(Keys(s, key))
    ensures forall x :: x in s ==> key(x) in Keys(s, key)
    ensures forall k :: k in Keys(s, key) ==> exists x :: x in s && key(x) == k
  {
    if s != [] {
      var init := s[..|s| - 1];
      KeysSpec(init, key);
      assert s == init + [s[|s| - 1]];
      assert forall x :: x in s ==> x in init || x == s[|s| - 1];
      assert forall x :: x in init ==> x in s;
    }
  }

  /** A key not yet received selects nothing. */
  lemma KeepUnseenKey<T, K>(s: seq<T>, key: T -> K, k: K)
    requires k !in Keys(s, key)
    ensures Keep(s, HasKey(key, k)) == []
  {
    KeysSpec(s, key);
    KeepNone(s, HasKey(key, k));
  }

  /** One more element adds its key at the end, unless the key was already received. */
  lemma KeysSnoc<T, K>(s: seq<T>, x: T, key: T -> K)
    ensures Keys(s + [x], key)
            == if key(x) in Keys(s, key) then Keys(s, key) else Keys(s, key) + [key(x)]
  {
    assert (s + [x])[..|s|] == s;
  }

  /** The group of key `k` after one more element `x`. */
  lemma KeepSnocKey<T, K>(s: seq<T>, x: T, key: T -> K, k: K)
    ensures Keep(s + [x], HasKey(key, k))
            == if key(x) == k then Keep(s, HasKey(key, k)) + [x] else Keep(s, HasKey(key, k))
  {
    KeepAppend(s, [x], HasKey(key, k));
    assert HasKey(key, k)(x) == (key(x) == k);
  }

  /** One more element is appended to its key's group, which is created empty if it is new. */
  lemma GroupsSnoc<T, K>(s: seq<T>, x: T, key: T -> K)
    ensures Groups(s + [x], key)
            == var g := Groups(s, key);
               g[key(x) := (if key(x) in g then g[key(x)] else []) + [x]]
  {
    var g := Groups(s, key);
    var g' := g[key(x) := (if key(x) in g then g[key(x)] else []) + [x]];
    var h := Groups(s + [x], key);
    KeysSnoc(s, x, key);
    assert h.Keys == g'.Keys;
    forall k | k in h
      ensures h[k] == g'[k]
    {
      KeepSnocKey(s, x, key, k);
      if k !in g {
        KeepUnseenKey(s, key, k);
      }
    }
  }

  /** Filling the dictionary from a prefix of `s` gives a prefix of the final key order. */
  lemma {:induction false} KeysPrefix<T, K>(s: seq<T>, key: T -> K, n: nat)
    requires n <= |s|
    ensures Keys(s[..n], key) <= Keys(s, key)
    decreases |s| - n
  {
    if n < |s| {
      var init := s[..|s| - 1];
      assert init[..n] == s[..n];
      KeysPrefix(init, key, n);
      assert Keys(init, key) <= Keys(s, key);
    } else {
      assert s[..n] == s;
    }
  }

  /**
    First-seen order: wherever an element with a later key occurs, an element
    with each earlier key has occurred before it.
   */
  lemma KeysFirstSeen<T, K>(s: seq<T>, key: T -> K, a: nat, b: nat, j: nat)
    requires a < b < |Keys(s, key)|
    requires j < |s| && key(s[j]) == Keys(s, key)[b]
    ensures exists i :: 0 <= i < j && key(s[i]) == Keys(s, key)[a]
  {
    var ks := Keys(s, key);
    var pre := Keys(s[..j + 1], key);
    KeysSpec(s, key);
    KeysSpec(s[..j + 1], key);
    KeysPrefix(s, key, j + 1);
    assert s[j] in s[..j + 1];
    assert ks[b] in pre;
    var m :| 0 <= m < |pre| && pre[m] == ks[b];
    assert m == b;
    assert ks[a] == pre[a] && pre[a] in pre;
    var x :| x in s[..j + 1] && key(x) == ks[a];
    var i :| 0 <= i <= j && s[i] == x;
    assert i != j;
  }

  /** An element's key is the first of distinct keys, or one of the others, never both. */
  lemma KeyInSplitAt<T, K>(s: seq<T>, key: T -> K, ks: seq<K>, x: T)
    requires Distinct(ks) && ks != []
    ensures multiset(Keep(s, KeyIn(key, ks)))[x]
         == multiset(Keep(s, HasKey(key, ks[0])))[x] + multiset(Keep(s, KeyIn(key, ks[1..])))[x]
  {
    KeepCount(s, HasKey(key, ks[0]), x);
    KeepCount(s, KeyIn(key, ks[1..]), x);
    KeepCount(s, KeyIn(key, ks), x);
    assert key(x) in ks <==> key(x) == ks[0] || key(x) in ks[1..];
    assert key(x) == ks[0] ==> key(x) !in ks[1..];
  }

  /** Selecting by distinct keys splits into the first key's group and the rest. */
  lemma KeyInSplit<T, K>(s: seq<T>, key: T -> K, ks: seq<K>)
    requires Distinct(ks) && ks != []
    ensures multiset(Keep(s, KeyIn(key, ks)))
         == multiset(Keep(s, HasKey(key, ks[0]))) + multiset(Keep(s, KeyIn(key, ks[1..])))
  {
    var m := multiset(Keep(s, HasKey(key, ks[0]))) + multiset(Keep(s, KeyIn(key, ks[1..])));
    forall x
      ensures m[x] == multiset(Keep(s, KeyIn(key, ks)))[x]
    {
      KeyInSplitAt(s, key, ks, x);
    }
  }

  /**
    For distinct keys, the groups laid end to end hold exactly the elements
    whose key is among them, each as often as in `s`.
   */
  lemma {:induction false} ConcatCount<T, K>(s: seq<T>, key: T -> K, ks: seq<K>)
    requires Distinct(ks)
    requires forall k :: k in ks ==> k in Keys(s, key)
    ensures multiset(Concat(Groups(s, key), ks)) == multiset(Keep(s, KeyIn(key, ks)))
  {
    if ks == [] {
      KeepNone(s, KeyIn(key, ks));
    } else {
      ConcatCount(s, key, ks[1..]);
      KeyInSplit(s, key, ks);
    }
  }

  /** Grouping by the first-seen keys partitions `s`: every element lands in exactly one group. */
  lemma GroupsPartition<T, K>(s: seq<T>, key: T -> K)
    ensures multiset(Concat(Groups(s, key), Keys(s, key))) == multiset(s)
  {
    var ks := Keys(s, key);
    KeysSpec(s, key);
    ConcatCount(s, key, ks);
    KeepAll(s, KeyIn(key, ks));
  }
}
