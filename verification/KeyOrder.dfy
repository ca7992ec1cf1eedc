/**
 The order of bundle keys: byte-wise string comparison, the stable sort the encodings and the
 validator call, and the adjacent-pair scan that looks for duplicates in sorted order.
 */
module KeyOrder {
  import opened Text

  datatype CaBundleKey = CaBundleKey(keyId: string, publicKey: string)

  function KeyId(k: CaBundleKey): string {
    k.keyId
  }

  function PublicKey(k: CaBundleKey): string {
    k.publicKey
  }

  type Field = CaBundleKey -> string

  // ---- String comparison ----

  /** `str` ordering: UTF-8 preserves code-point order, so this is lexicographic on characters. */
  predicate LexLe(a: string, b: string) {
    a == [] || (b != [] && (a[0] < b[0] || (a[0] == b[0] && LexLe(a[1..], b[1..]))))
  }

  lemma {:induction false} LexTotal(a: string, b: string)
    ensures LexLe(a, b) || LexLe(b, a)
  {
    if a != [] && b != [] && a[0] == b[0] {
      LexTotal(a[1..], b[1..]);
    }
  }

  lemma {:induction false} LexAntisymmetric(a: string, b: string)
    requires LexLe(a, b) && LexLe(b, a)
    ensures a == b
  {
    if a != [] {
      LexAntisymmetric(a[1..], b[1..]);
      assert a == [a[0]] + a[1..] && b == [b[0]] + b[1..];
    }
  }

  lemma {:induction false} LexTransitive(a: string, b: string, c: string)
    requires LexLe(a, b) && LexLe(b, c)
    ensures LexLe(a, c)
  {
    if a != [] && a[0] == b[0] == c[0] {
      LexTransitive(a[1..], b[1..], c[1..]);
    }
  }

  /** The first character in which the two differ is number `i`, and there `a` has the lower one. */
  predicate LowerAt(a: string, b: string, i: nat) {
    i < |a| && i < |b| && a[..i] == b[..i] && a[i] < b[i]
  }

  /** `a` is a prefix of `b`, or lower in the first character in which they differ. */
  ghost predicate NotAfter(a: string, b: string) {
    a <= b || exists i: nat :: LowerAt(a, b, i)
  }

  lemma LowerFurther(a: string, b: string, i: nat)
    requires a != [] && b != [] && a[0] == b[0]
    ensures LowerAt(a, b, i + 1) <==> LowerAt(a[1..], b[1..], i)
  {
    if i + 1 < |a| && i + 1 < |b| {
      assert a[..i + 1] == [a[0]] + a[1..][..i] && b[..i + 1] == [b[0]] + b[1..][..i];
      assert a[1..][..i] == a[..i + 1][1..] && b[1..][..i] == b[..i + 1][1..];
    }
  }

  /** The comparison is by the first character that differs, and a prefix comes first. */
  lemma {:induction false} LexLeIff(a: string, b: string)
    ensures LexLe(a, b) <==> NotAfter(a, b)
  {
    if a != [] && b != [] && a[0] == b[0] {
      LexLeIff(a[1..], b[1..]);
      assert a <= b <==> a[1..] <= b[1..] by {
        assert a == [a[0]] + a[1..] && b == [b[0]] + b[1..];
      }
      if i: nat :| LowerAt(a[1..], b[1..], i) {
        LowerFurther(a, b, i);
      }
      if i: nat :| LowerAt(a, b, i) {
        LowerFurther(a, b, i - 1);
      }
    } else if a != [] && b != [] {
      FirstDiffers(a, b);
    }
  }

  lemma FirstDiffers(a: string, b: string)
    requires a != [] && b != [] && a[0] != b[0]
    ensures LowerAt(a, b, 0) <==> a[0] < b[0]
    ensures forall i: nat :: i > 0 ==> !LowerAt(a, b, i)
  {
    assert a[..0] == b[..0];
    forall i: nat | i > 0 ensures !LowerAt(a, b, i) {
      if i < |a| && i < |b| {
        assert a[..i][0] != b[..i][0];
      }
    }
  }

  // ---- The stable sort ----

  ghost predicate SortedBy(f: Field, s: seq<CaBundleKey>) {
    forall i, j :: 0 <= i < j < |s| ==> NotAfter(f(s[i]), f(s[j]))
  }

  /** The same in terms of the comparison. */
  ghost predicate LexSorted(f: Field, s: seq<CaBundleKey>) {
    forall i, j :: 0 <= i < j < |s| ==> LexLe(f(s[i]), f(s[j]))
  }

  lemma SortedByLex(f: Field, s: seq<CaBundleKey>)
    ensures SortedBy(f, s) <==> LexSorted(f, s)
  {
    forall i, j | 0 <= i < j < |s| ensures LexLe(f(s[i]), f(s[j])) <==> NotAfter(f(s[i]), f(s[j])) {
      LexLeIff(f(s[i]), f(s[j]));
    }
  }

  predicate Distinct(f: Field, s: seq<CaBundleKey>) {
    forall i, j :: 0 <= i < j < |s| ==> f(s[i]) != f(s[j])
  }

  /** Insert `k` behind every element that does not exceed it. */
  function Insert(f: Field, s: seq<CaBundleKey>, k: CaBundleKey): (r: seq<CaBundleKey>)
    ensures |r| == |s| + 1
  {
    if s == [] then [k]
    else
      var n := |s| - 1;
      if LexLe(f(s[n]), f(k)) then s + [k] else Insert(f, s[..n], k) + [s[n]]
  }

  /** `slice::sort_by` on one field. */
  function SortBy(f: Field, s: seq<CaBundleKey>): (r: seq<CaBundleKey>)
    ensures |r| == |s|
  {
    if s == [] then [] else Insert(f, SortBy(f, s[..|s| - 1]), s[|s| - 1])
  }

  lemma {:induction false} InsertPermutes(f: Field, s: seq<CaBundleKey>, k: CaBundleKey)
    ensures multiset(Insert(f, s, k)) == multiset(s) + multiset{k}
  {
    if s != [] {
      var n := |s| - 1;
      assert s == s[..n] + [s[n]];
      InsertPermutes(f, s[..n], k);
    }
  }

  /** Sorting permutes. */
  lemma {:induction false} SortByPermutes(f: Field, s: seq<CaBundleKey>)
    ensures multiset(SortBy(f, s)) == multiset(s)
  {
    if s != [] {
      var n := |s| - 1;
      assert s == s[..n] + [s[n]];
      SortByPermutes(f, s[..n]);
      InsertPermutes(f, SortBy(f, s[..n]), s[n]);
    }
  }

  lemma InMultiset(s: seq<CaBundleKey>, i: nat)
    requires i < |s|
    ensures s[i] in multiset(s)
  {
  }

  lemma {:induction false} InsertSorted(f: Field, s: seq<CaBundleKey>, k: CaBundleKey)
    requires LexSorted(f, s)
    ensures LexSorted(f, Insert(f, s, k))
  {
    if s != [] {
      var n := |s| - 1;
      if LexLe(f(s[n]), f(k)) {
        forall i | 0 <= i < n ensures LexLe(f(s[i]), f(k)) {
          LexTransitive(f(s[i]), f(s[n]), f(k));
        }
      } else {
        LexTotal(f(s[n]), f(k));
        var t := Insert(f, s[..n], k);
        InsertSorted(f, s[..n], k);
        InsertPermutes(f, s[..n], k);
        forall i | 0 <= i < |t| ensures LexLe(f(t[i]), f(s[n])) {
          InMultiset(t, i);
          assert t[i] in multiset(s[..n]) || t[i] == k;
        }
      }
    }
  }

  /** Sorting sorts. */
  lemma {:induction false} SortBySorted(f: Field, s: seq<CaBundleKey>)
    ensures SortedBy(f, SortBy(f, s))
  {
    if s != [] {
      var n := |s| - 1;
      SortBySorted(f, s[..n]);
      SortedByLex(f, SortBy(f, s[..n]));
      InsertSorted(f, SortBy(f, s[..n]), s[n]);
      SortedByLex(f, SortBy(f, s));
    }
  }

  /** The keys of `s` whose field is `v`, in order. */
  function WithField(f: Field, s: seq<CaBundleKey>, v: string): seq<CaBundleKey> {
    if s == [] then []
    else WithField(f, s[..|s| - 1], v) + Matching(f, s[|s| - 1], v)
  }

  function Matching(f: Field, k: CaBundleKey, v: string): seq<CaBundleKey> {
    if f(k) == v then [k] else []
  }

  lemma WithFieldAppend(f: Field, s: seq<CaBundleKey>, k: CaBundleKey, v: string)
    ensures WithField(f, s + [k], v) == WithField(f, s, v) + Matching(f, k, v)
  {
    assert (s + [k])[..|s + [k]| - 1] == s;
  }

  /** Two elements with different fields do not both match. */
  lemma MatchingSwap(f: Field, t: seq<CaBundleKey>, k: CaBundleKey, l: CaBundleKey, v: string)
    requires f(k) != f(l)
    ensures t + Matching(f, k, v) + Matching(f, l, v) == t + Matching(f, l, v) + Matching(f, k, v)
  {
  }

  lemma {:induction false} InsertStable(f: Field, s: seq<CaBundleKey>, k: CaBundleKey, v: string)
    ensures WithField(f, Insert(f, s, k), v) == WithField(f, s, v) + Matching(f, k, v)
  {
    if s == [] || LexLe(f(s[|s| - 1]), f(k)) {
      assert Insert(f, s, k) == s + [k];
      WithFieldAppend(f, s, k, v);
    } else {
      var n := |s| - 1;
      InsertStable(f, s[..n], k, v);
      WithFieldAppend(f, Insert(f, s[..n], k), s[n], v);
      WithFieldAppend(f, s[..n], s[n], v);
      assert s == s[..n] + [s[n]];
      LexTotal(f(s[n]), f(s[n]));
      MatchingSwap(f, WithField(f, s[..n], v), k, s[n], v);
    }
  }

  /** Every field value occurs on the same keys in the same order. */
  ghost predicate SameOrder(f: Field, s: seq<CaBundleKey>, t: seq<CaBundleKey>) {
    forall v :: WithField(f, s, v) == WithField(f, t, v)
  }

  lemma StableStep(f: Field, t: seq<CaBundleKey>, r: seq<CaBundleKey>, k: CaBundleKey)
    requires SameOrder(f, r, t)
    ensures SameOrder(f, Insert(f, r, k), t + [k])
  {
    forall v ensures WithField(f, Insert(f, r, k), v) == WithField(f, t + [k], v) {
      InsertStable(f, r, k, v);
      WithFieldAppend(f, t, k, v);
    }
  }

  /** Keys with one field value keep their order, so the sort is the stable one. */
  lemma {:induction false} SortByStable(f: Field, s: seq<CaBundleKey>)
    ensures SameOrder(f, SortBy(f, s), s)
  {
    if s != [] {
      var t, k := s[..|s| - 1], s[|s| - 1];
      SortByStable(f, t);
      StableStep(f, t, SortBy(f, t), k);
      assert s == t + [k];
    }
  }

  // ---- Duplicates ----

  ghost predicate HasAdjacentPair(f: Field, s: seq<CaBundleKey>) {
    exists i :: 0 <= i < |s| - 1 && f(s[i]) == f(s[i + 1])
  }

  /** The scan over `windows(2)`. */
  method AdjacentDuplicate(f: Field, s: seq<CaBundleKey>) returns (dup: bool)
    ensures dup == HasAdjacentPair(f, s)
  {
    var i := 0;
    while i + 1 < |s|
      invariant forall j :: 0 <= j < i && j < |s| - 1 ==> f(s[j]) != f(s[j + 1])
      decreases |s| - i
    {
      if f(s[i]) == f(s[i + 1]) {
        return true;
      }
      i := i + 1;
    }
    return false;
  }

  /** In sorted order a duplicate anywhere shows up as an adjacent pair. */
  lemma AdjacentIffAnywhere(f: Field, s: seq<CaBundleKey>)
    requires SortedBy(f, s)
    ensures HasAdjacentPair(f, s) <==> !Distinct(f, s)
  {
    SortedByLex(f, s);
    if !Distinct(f, s) {
      var i, j :| 0 <= i < j < |s| && f(s[i]) == f(s[j]);
      if j != i + 1 {
        LexAntisymmetric(f(s[i]), f(s[i + 1]));
      }
      assert f(s[i]) == f(s[i + 1]);
    }
  }

  lemma {:induction false} TwicePresent(s: seq<CaBundleKey>, k: CaBundleKey)
    requires multiset(s)[k] >= 2
    ensures exists i, j :: 0 <= i < j < |s| && s[i] == k && s[j] == k
  {
    var n := |s| - 1;
    assert s == s[..n] + [s[n]];
    if s[n] == k {
      assert k in multiset(s[..n]);
      var i :| 0 <= i < n && s[i] == k;
      assert s[i] == k && s[n] == k;
    } else {
      TwicePresent(s[..n], k);
      var i, j :| 0 <= i < j < n && s[..n][i] == k && s[..n][j] == k;
      assert s[i] == k && s[j] == k;
    }
  }

  lemma TwiceInMultiset(s: seq<CaBundleKey>, i: nat, j: nat)
    requires i < j < |s| && s[i] == s[j]
    ensures multiset(s)[s[i]] >= 2
  {
    assert s == s[..j] + s[j..];
    InMultiset(s[..j], i);
    InMultiset(s[j..], 0);
  }

  /** Distinctness does not depend on the order. */
  lemma DistinctPermutation(f: Field, s: seq<CaBundleKey>, t: seq<CaBundleKey>)
    requires multiset(s) == multiset(t)
    requires Distinct(f, s)
    ensures Distinct(f, t)
  {
    forall i, j | 0 <= i < j < |t| ensures f(t[i]) != f(t[j]) {
      InMultiset(t, i);
      InMultiset(t, j);
      if t[i] == t[j] {
        TwiceInMultiset(t, i, j);
        TwicePresent(s, t[i]);
      } else {
        var p :| 0 <= p < |s| && s[p] == t[i];
        var q :| 0 <= q < |s| && s[q] == t[j];
        assert p < q || q < p;
      }
    }
  }

  /** Sort-then-scan finds exactly the lists with a duplicate anywhere. */
  lemma SortThenScan(f: Field, s: seq<CaBundleKey>)
    ensures HasAdjacentPair(f, SortBy(f, s)) <==> !Distinct(f, s)
  {
    SortBySorted(f, s);
    SortByPermutes(f, s);
    AdjacentIffAnywhere(f, SortBy(f, s));
    if Distinct(f, s) {
      DistinctPermutation(f, s, SortBy(f, s));
    } else if Distinct(f, SortBy(f, s)) {
      DistinctPermutation(f, SortBy(f, s), s);
    }
  }

  // ---- One order per set of keys ----

  lemma HeadIsLeast(f: Field, s: seq<CaBundleKey>, t: seq<CaBundleKey>)
    requires SortedBy(f, s) && SortedBy(f, t) && Distinct(f, s) && Distinct(f, t)
    requires multiset(s) == multiset(t) && s != [] && t != []
    ensures s[0] == t[0]
  {
    SortedByLex(f, s);
    SortedByLex(f, t);
    InMultiset(t, 0);
    InMultiset(s, 0);
    var i :| 0 <= i < |s| && s[i] == t[0];
    var j :| 0 <= j < |t| && t[j] == s[0];
    if i != 0 && j != 0 {
      LexAntisymmetric(f(s[0]), f(t[0]));
    }
  }

  lemma TailMultiset(s: seq<CaBundleKey>)
    requires s != []
    ensures multiset(s[1..]) == multiset(s) - multiset{s[0]}
  {
    assert s == [s[0]] + s[1..];
  }

  lemma {:induction false} SortedUnique(f: Field, s: seq<CaBundleKey>, t: seq<CaBundleKey>)
    requires SortedBy(f, s) && SortedBy(f, t) && Distinct(f, s) && Distinct(f, t)
    requires multiset(s) == multiset(t)
    ensures s == t
  {
    assert |s| == |multiset(s)| == |multiset(t)| == |t|;
    if s != [] {
      HeadIsLeast(f, s, t);
      TailMultiset(s);
      TailMultiset(t);
      SortedUnique(f, s[1..], t[1..]);
      assert s == [s[0]] + s[1..] && t == [t[0]] + t[1..];
    }
  }

  /** Lists of distinct keys that are permutations of each other sort to one list. */
  lemma SortByPermutation(f: Field, s: seq<CaBundleKey>, t: seq<CaBundleKey>)
    requires multiset(s) == multiset(t) && Distinct(f, s)
    ensures SortBy(f, s) == SortBy(f, t)
  {
    SortBySorted(f, s);
    SortBySorted(f, t);
    SortByPermutes(f, s);
    SortByPermutes(f, t);
    DistinctPermutation(f, s, SortBy(f, s));
    DistinctPermutation(f, s, SortBy(f, t));
    SortedUnique(f, SortBy(f, s), SortBy(f, t));
  }

  /** Sorting a sorted list changes nothing. */
  lemma {:induction false} SortSorted(f: Field, s: seq<CaBundleKey>)
    requires SortedBy(f, s)
    ensures SortBy(f, s) == s
  {
    if s != [] {
      var n := |s| - 1;
      SortSorted(f, s[..n]);
      SortedByLex(f, s);
      assert s == s[..n] + [s[n]];
    }
  }
}
