/**
 The one ordering the crate sorts by: a key is a sequence of integers compared
 lexicographically, a proper prefix first. Tuple keys, byte-wise file names and
 `ContractKey` all reduce to it, so each fact about sorting is proved once.
 */
module Sorting {

  type Key = seq<int>

  /** Strict lexicographic order. */
  predicate Less(a: Key, b: Key)
  {
    if b == [] then false
    else if a == [] then true
    else a[0] < b[0] || (a[0] == b[0] && Less(a[1..], b[1..]))
  }

  lemma {:induction false} LessTrichotomy(a: Key, b: Key)
    ensures Less(a, b) || Less(b, a) || a == b
    ensures !(Less(a, b) && Less(b, a))
    ensures a == b ==> !Less(a, b)
  {
    if a != [] && b != [] {
      LessTrichotomy(a[1..], b[1..]);
      assert a == [a[0]] + a[1..] && b == [b[0]] + b[1..];
    }
  }

  lemma {:induction false} LessTransitive(a: Key, b: Key, c: Key)
    requires Less(a, b) && Less(b, c)
    ensures Less(a, c)
  {
    if a != [] && a[0] == b[0] == c[0] {
      LessTransitive(a[1..], b[1..], c[1..]);
    }
  }

  /** `a <= b <= c`, with `<=` the negation of the flipped strict order. */
  lemma LessEqTransitive(a: Key, b: Key, c: Key)
    requires !Less(b, a) && !Less(c, b)
    ensures !Less(c, a)
  {
    LessTrichotomy(a, b);
    LessTrichotomy(b, c);
    if Less(c, a) {
      if a != b { LessTransitive(c, a, b); }
    }
  }

  ghost predicate SortedBy<T>(s: seq<T>, key: T -> Key)
  {
    forall i, j | 0 <= i < j < |s| :: !Less(key(s[j]), key(s[i]))
  }

  ghost predicate StrictlySortedBy<T>(s: seq<T>, key: T -> Key)
  {
    forall i, j | 0 <= i < j < |s| :: Less(key(s[i]), key(s[j]))
  }

  /** No two positions carry the same key. */
  ghost predicate DistinctKeys<T>(s: seq<T>, key: T -> Key)
  {
    forall i, j | 0 <= i < j < |s| :: key(s[i]) != key(s[j])
  }

  /** Insert before the first element whose key is not smaller. */
  function Insert<T>(x: T, s: seq<T>, key: T -> Key): seq<T>
  {
    if s == [] || !Less(key(s[0]), key(x)) then [x] + s
    else [s[0]] + Insert(x, s[1..], key)
  }

  /** Stable sort by key: equal keys keep their input order. */
  function Sort<T>(s: seq<T>, key: T -> Key): seq<T>
  {
    if s == [] then [] else Insert(s[0], Sort(s[1..], key), key)
  }

  /** A lower bound of the elements of a sorted sequence may be put in front of it. */
  lemma ConsSorted<T>(h: T, elements: seq<T>, t: seq<T>, key: T -> Key)
    requires multiset(elements) == multiset(t) && SortedBy(t, key)
    requires forall i | 0 <= i < |elements| :: !Less(key(elements[i]), key(h))
    ensures SortedBy([h] + t, key)
  {
    forall j | 0 <= j < |t| ensures !Less(key(t[j]), key(h)) {
      var i := PositionOf(t[j], elements);
    }
  }

  lemma {:induction false} InsertMultiset<T>(x: T, s: seq<T>, key: T -> Key)
    ensures multiset(Insert(x, s, key)) == multiset(s + [x])
  {
    hide Less;
    if s != [] && Less(key(s[0]), key(x)) {
      InsertMultiset(x, s[1..], key);
      assert Insert(x, s, key) == [s[0]] + Insert(x, s[1..], key);
      assert s + [x] == [s[0]] + (s[1..] + [x]);
    } else {
      assert Insert(x, s, key) == [x] + s;
    }
  }

  lemma {:induction false} InsertKeepsSorted<T>(x: T, s: seq<T>, key: T -> Key)
    requires SortedBy(s, key)
    ensures SortedBy(Insert(x, s, key), key)
    ensures multiset(Insert(x, s, key)) == multiset(s) + multiset{x}
  {
    hide Less;
    InsertMultiset(x, s, key);
    if s == [] {
      assert Insert(x, s, key) == [x];
    } else {
      LessTrichotomy(key(s[0]), key(x));
      LessTrichotomy(key(s[0]), key(s[0]));
      if !Less(key(s[0]), key(x)) {
        forall i | 0 <= i < |s| ensures !Less(key(s[i]), key(x)) {
          LessEqTransitive(key(x), key(s[0]), key(s[i]));
        }
        ConsSorted(x, s, s, key);
      } else {
        InsertKeepsSorted(x, s[1..], key);
        InsertMultiset(x, s[1..], key);
        ConsSorted(s[0], s[1..] + [x], Insert(x, s[1..], key), key);
      }
    }
  }

  lemma {:induction false} SortCorrect<T>(s: seq<T>, key: T -> Key)
    ensures SortedBy(Sort(s, key), key)
    ensures multiset(Sort(s, key)) == multiset(s)
    ensures |Sort(s, key)| == |s|
  {
    if s != [] {
      SortCorrect(s[1..], key);
      InsertKeepsSorted(s[0], Sort(s[1..], key), key);
      assert s == [s[0]] + s[1..];
    }
    assert |multiset(Sort(s, key))| == |multiset(s)|;
  }

  /** A key-distinct input sorts strictly, and only then. */
  lemma {:induction false} DistinctIffStrict<T>(s: seq<T>, key: T -> Key)
    ensures DistinctKeys(s, key) <==> StrictlySortedBy(Sort(s, key), key)
  {
    var t := Sort(s, key);
    SortCorrect(s, key);
    if DistinctKeys(s, key) {
      DistinctSurvivesPermutation(s, t, key);
      forall i, j | 0 <= i < j < |t| ensures Less(key(t[i]), key(t[j])) {
        LessTrichotomy(key(t[i]), key(t[j]));
      }
    }
    if StrictlySortedBy(t, key) {
      forall i, j | 0 <= i < j < |t| ensures key(t[i]) != key(t[j]) {
        LessTrichotomy(key(t[i]), key(t[j]));
      }
      DistinctSurvivesPermutation(t, s, key);
    }
  }

  function Drop<T>(s: seq<T>, i: nat): seq<T>
    requires i < |s|
  {
    s[..i] + s[i + 1..]
  }

  lemma DropMultiset<T>(s: seq<T>, i: nat)
    requires i < |s|
    ensures multiset(Drop(s, i)) == multiset(s) - multiset{s[i]}
  {
    assert s == s[..i] + [s[i]] + s[i + 1..];
  }

  lemma PositionOf<T>(x: T, s: seq<T>) returns (k: nat)
    requires x in multiset(s)
    ensures k < |s| && s[k] == x
  {
    k :| 0 <= k < |s| && s[k] == x;
  }

  lemma ElementOf<T>(x: T, s: seq<T>, t: seq<T>)
    requires multiset(s) == multiset(t) && x in s
    ensures x in t
  {
    assert x in multiset(s);
  }

  /** Two positions of a permutation come from two positions of the original. */
  lemma TwinPositions<T>(s: seq<T>, t: seq<T>, i: nat, j: nat) returns (p: nat, q: nat)
    requires multiset(s) == multiset(t)
    requires i < j < |t|
    ensures p < |s| && q < |s| && p != q && s[p] == t[i] && s[q] == t[j]
  {
    DropMultiset(t, j);
    assert Drop(t, j)[i] == t[i];
    assert t[i] in multiset(Drop(t, j));
    q := PositionOf(t[j], s);
    DropMultiset(s, q);
    var k := PositionOf(t[i], Drop(s, q));
    p := if k < q then k else k + 1;
  }

  lemma DistinctSurvivesPermutation<T>(s: seq<T>, t: seq<T>, key: T -> Key)
    requires multiset(s) == multiset(t)
    requires DistinctKeys(s, key)
    ensures DistinctKeys(t, key)
  {
    forall i, j | 0 <= i < j < |t| ensures key(t[i]) != key(t[j]) {
      var p, q := TwinPositions(s, t, i, j);
      if p < q {
        assert key(s[p]) != key(s[q]);
      } else {
        assert key(s[q]) != key(s[p]);
      }
    }
  }

  lemma SameHead<T>(s: seq<T>, t: seq<T>, key: T -> Key)
    requires StrictlySortedBy(s, key) && StrictlySortedBy(t, key)
    requires multiset(s) == multiset(t) && s != []
    ensures t != [] && s[0] == t[0]
  {
    var i := PositionOf(s[0], t);
    var j := PositionOf(t[0], s);
    LessTrichotomy(key(s[0]), key(t[0]));
  }

  lemma TailSorted<T>(s: seq<T>, key: T -> Key)
    requires StrictlySortedBy(s, key) && s != []
    ensures StrictlySortedBy(s[1..], key)
  {
    hide Less;
  }

  lemma TailStrict<T>(s: seq<T>, key: T -> Key)
    requires StrictlySortedBy(s, key) && s != []
    ensures StrictlySortedBy(s[1..], key)
    ensures multiset(s[1..]) == multiset(s) - multiset{s[0]}
    ensures s == [s[0]] + s[1..]
  {
    hide Less, StrictlySortedBy;
    DropMultiset(s, 0);
    assert Drop(s, 0) == s[1..];
    TailSorted(s, key);
  }

  /** Strictly sorted sequences with the same elements are the same sequence. */
  lemma {:induction false} StrictlySortedUnique<T>(s: seq<T>, t: seq<T>, key: T -> Key)
    requires StrictlySortedBy(s, key) && StrictlySortedBy(t, key)
    requires multiset(s) == multiset(t)
    ensures s == t
    decreases |s|
  {
    if s == [] {
      assert |multiset(t)| == |t|;
    } else {
      SameHead(s, t, key);
      TailStrict(s, key);
      TailStrict(t, key);
      StrictlySortedUnique(s[1..], t[1..], key);
    }
  }

  /** Two strictly sorted sequences of the same elements are one. */
  lemma {:induction false} StrictSameElements<T>(s: seq<T>, t: seq<T>, key: T -> Key)
    requires StrictlySortedBy(s, key) && StrictlySortedBy(t, key)
    requires forall x :: x in s <==> x in t
    ensures s == t
    decreases |s|
  {
    hide Less;
    if s == [] {
      assert forall i | 0 <= i < |t| :: t[i] in s;
    } else {
      assert s[0] in t;
      var i :| 0 <= i < |t| && t[i] == s[0];
      assert t[0] in s;
      var j :| 0 <= j < |s| && s[j] == t[0];
      LessTrichotomy(key(s[0]), key(t[0]));
      assert s[0] == t[0];
      forall x ensures x in s[1..] <==> x in t[1..] {
        TailElement(s, x, key);
        TailElement(t, x, key);
      }
      TailSorted(s, key);
      TailSorted(t, key);
      StrictSameElements(s[1..], t[1..], key);
      assert s == [s[0]] + s[1..] && t == [t[0]] + t[1..];
    }
  }

  lemma TailElement<T>(s: seq<T>, x: T, key: T -> Key)
    requires StrictlySortedBy(s, key) && s != []
    ensures x in s[1..] <==> x in s && x != s[0]
  {
    hide Less;
    LessTrichotomy(key(s[0]), key(s[0]));
    if x in s[1..] {
      var i :| 0 <= i < |s[1..]| && s[1..][i] == x;
      assert Less(key(s[0]), key(s[i + 1]));
    }
  }

  /** With distinct keys, sorting forgets the order of its input. */
  lemma SortForgetsOrder<T>(s: seq<T>, t: seq<T>, key: T -> Key)
    requires multiset(s) == multiset(t)
    requires DistinctKeys(s, key)
    ensures Sort(s, key) == Sort(t, key)
  {
    DistinctSurvivesPermutation(s, t, key);
    DistinctIffStrict(s, key);
    DistinctIffStrict(t, key);
    SortCorrect(s, key);
    SortCorrect(t, key);
    StrictlySortedUnique(Sort(s, key), Sort(t, key), key);
  }

  /** A strictly sorted sequence is its own sort. */
  lemma {:induction false} SortedIsFixed<T>(s: seq<T>, key: T -> Key)
    requires StrictlySortedBy(s, key)
    ensures Sort(s, key) == s
  {
    if s != [] {
      SortedIsFixed(s[1..], key);
      assert s == [s[0]] + s[1..];
      if |s| > 1 { LessTrichotomy(key(s[0]), key(s[1])); }
    }
  }

  /** The elementwise image of a sequence. */
  function Map<T, U>(f: T -> U, s: seq<T>): (r: seq<U>)
    ensures |r| == |s| && forall i | 0 <= i < |s| :: r[i] == f(s[i])
  {
    seq(|s|, i requires 0 <= i < |s| => f(s[i]))
  }

  lemma MapDrop<T, U>(f: T -> U, s: seq<T>, k: nat)
    requires k < |s|
    ensures multiset(Map(f, s)) == multiset(Map(f, Drop(s, k))) + multiset{f(s[k])}
  {
    var m := Map(f, s);
    assert m == m[..k] + [m[k]] + m[k + 1..];
    assert Map(f, Drop(s, k)) == m[..k] + m[k + 1..];
  }

  lemma {:induction false} MapPermutation<T, U>(f: T -> U, s: seq<T>, t: seq<T>)
    requires multiset(s) == multiset(t)
    ensures multiset(Map(f, s)) == multiset(Map(f, t))
    decreases |s|
  {
    if s == [] {
      assert |multiset(t)| == |t|;
    } else {
      var k := PositionOf(s[0], t);
      DropMultiset(s, 0);
      DropMultiset(t, k);
      MapPermutation(f, Drop(s, 0), Drop(t, k));
      MapDrop(f, s, 0);
      MapDrop(f, t, k);
    }
  }
}
