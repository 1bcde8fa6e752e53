/**
 * The two comparators of the generator over (word, count) entries:
 * MapPairValue (decreasing count, then alphabetical) and MapPairKey
 * (alphabetical, then increasing count), built on Java's String.compareTo
 * and Integer.compareTo.
 */
module Ordering {

  /** A map entry: a word and its count. */
  datatype Entry = Entry(key: string, count: int)

  /** String.compareTo: the difference of the first pair of differing
      characters, or else the difference of the lengths; zero exactly on
      equal strings. */
  function CompareStrings(a: string, b: string): (r: int)
    ensures r == 0 <==> a == b
  {
    if a == [] || b == [] then |a| - |b|
    else if a[0] != b[0] then a[0] as int - b[0] as int
    else
      assert a == [a[0]] + a[1..] && b == [b[0]] + b[1..];
      CompareStrings(a[1..], b[1..])
  }

  /** String.compareTo as Java documents it: at the first index `k` where
      the strings differ, the difference of their characters there; when
      one string is a prefix of the other, the difference of the lengths. */
  lemma {:induction false} CompareStringsDocumented(a: string, b: string, k: nat)
    requires k <= |a| && k <= |b| && a[..k] == b[..k]
    ensures k < |a| && k < |b| && a[k] != b[k] ==> CompareStrings(a, b) == a[k] as int - b[k] as int
    ensures k == |a| || k == |b| ==> CompareStrings(a, b) == |a| - |b|
  {
    if k > 0 {
      assert a[0] == a[..k][0] == b[..k][0] == b[0];
      SliceTail(a, k);
      SliceTail(b, k);
      CompareStringsDocumented(a[1..], b[1..], k - 1);
    }
  }

  /** Textbook lexicographic order: `a` is a proper prefix of `b`, or at the
      first position where they differ `a` has the smaller character. */
  predicate LexLess(a: string, b: string) {
    exists k :: 0 <= k <= |a| && k <= |b| && a[..k] == b[..k] && LexLessAt(a, b, k)
  }

  /** The condition on the first position `k` where `a` and `b` may differ. */
  predicate LexLessAt(a: string, b: string, k: nat) {
    (k == |a| && k < |b|) || (k < |a| && k < |b| && a[k] < b[k])
  }

  /** No string is lexicographically smaller than itself. */
  lemma LexLessIrreflexive(a: string)
    ensures !LexLess(a, a)
  {
    CompareStringsLess(a, a);
  }

  /** Swapping the arguments of String.compareTo negates the result. */
  lemma {:induction false} CompareStringsAntisymmetric(a: string, b: string)
    ensures CompareStrings(b, a) == -CompareStrings(a, b)
  {
    if a != [] && b != [] && a[0] == b[0] {
      CompareStringsAntisymmetric(a[1..], b[1..]);
    }
  }

  /** The first `k` characters without the first are the next `k - 1`. */
  lemma SliceTail(a: string, k: nat)
    requires 0 < k <= |a|
    ensures a[1..][..k - 1] == a[..k][1..]
  {
  }

  /** Lexicographic order is preserved by dropping an equal first character. */
  lemma LexLessTail(a: string, b: string)
    requires a != [] && b != [] && a[0] == b[0]
    ensures LexLess(a, b) <==> LexLess(a[1..], b[1..])
  {
    if LexLess(a, b) {
      var k :| 0 <= k <= |a| && k <= |b| && a[..k] == b[..k] && LexLessAt(a, b, k);
      assert k != 0;
      SliceTail(a, k);
      SliceTail(b, k);
      assert LexLessAt(a[1..], b[1..], k - 1);
    }
    if LexLess(a[1..], b[1..]) {
      var k :| 0 <= k <= |a[1..]| && k <= |b[1..]| && a[1..][..k] == b[1..][..k] && LexLessAt(a[1..], b[1..], k);
      assert a[..k + 1] == [a[0]] + a[1..][..k] && b[..k + 1] == [b[0]] + b[1..][..k];
      assert LexLessAt(a, b, k + 1);
    }
  }

  /** String.compareTo is negative exactly when `a` precedes `b`
      lexicographically. */
  lemma {:induction false} CompareStringsLess(a: string, b: string)
    ensures CompareStrings(a, b) < 0 <==> LexLess(a, b)
  {
    if a == [] || b == [] {
      if b != [] {
        assert a[..0] == b[..0] && LexLessAt(a, b, 0);
      }
    } else if a[0] != b[0] {
      if a[0] < b[0] {
        assert a[..0] == b[..0] && LexLessAt(a, b, 0);
      }
      if LexLess(a, b) {
        var k :| 0 <= k <= |a| && k <= |b| && a[..k] == b[..k] && LexLessAt(a, b, k);
        if k > 0 {
          assert a[..k][0] == b[..k][0];
        }
      }
    } else {
      CompareStringsLess(a[1..], b[1..]);
      LexLessTail(a, b);
    }
  }

  /** String.compareTo orders strings transitively. */
  lemma {:induction false} CompareStringsTransitive(a: string, b: string, c: string)
    requires CompareStrings(a, b) < 0 && CompareStrings(b, c) < 0
    ensures CompareStrings(a, c) < 0
  {
    if a != [] && b != [] && c != [] && a[0] == b[0] && b[0] == c[0] {
      CompareStringsTransitive(a[1..], b[1..], c[1..]);
    }
  }

  /** Integer.compareTo: -1, 0 or 1 as `x` is below, equal to or above `y`. */
  function CompareInts(x: int, y: int): (r: int)
    ensures r == -1 || r == 0 || r == 1
    ensures r < 0 <==> x < y
    ensures r == 0 <==> x == y
  {
    if x < y then -1 else if x == y then 0 else 1
  }

  /** MapPairValue.compare: higher counts first, equal counts alphabetically. */
  function CompareByValue(m1: Entry, m2: Entry): (r: int)
    ensures r == 0 <==> m1 == m2
    ensures r < 0 <==> m1.count > m2.count || (m1.count == m2.count && LexLess(m1.key, m2.key))
  {
    CompareStringsLess(m1.key, m2.key);
    var result := CompareInts(m2.count, m1.count);
    if result == 0 then CompareStrings(m1.key, m2.key) else result
  }

  /** MapPairKey.compare: alphabetical, equal words by increasing count. */
  function CompareByKey(m1: Entry, m2: Entry): (r: int)
    ensures r == 0 <==> m1 == m2
    ensures r < 0 <==> LexLess(m1.key, m2.key) || (m1.key == m2.key && m1.count < m2.count)
  {
    CompareStringsLess(m1.key, m2.key);
    var result := CompareStrings(m1.key, m2.key);
    if result == 0 then CompareInts(m1.count, m2.count) else result
  }

  /** The two comparators the generator hands to its priority queues. */
  datatype Order = ByValue | ByKey

  function Compare(o: Order, m1: Entry, m2: Entry): int {
    match o
    case ByValue => CompareByValue(m1, m2)
    case ByKey => CompareByKey(m1, m2)
  }

  /** `m1` comes strictly before `m2` under comparator `o`. */
  predicate Before(o: Order, m1: Entry, m2: Entry) {
    Compare(o, m1, m2) < 0
  }

  /** Both comparators meet the Comparator contract: the sign flips when the
      arguments are swapped, and zero means equal entries. */
  lemma CompareAntisymmetric(o: Order, m1: Entry, m2: Entry)
    ensures Compare(o, m2, m1) == -Compare(o, m1, m2)
    ensures Compare(o, m1, m2) == 0 <==> m1 == m2
  {
    CompareStringsAntisymmetric(m1.key, m2.key);
  }

  /** No entry comes before itself. */
  lemma BeforeIrreflexive(o: Order, m: Entry)
    ensures !Before(o, m, m)
  {
  }

  /** Of two distinct entries exactly one comes first. */
  lemma BeforeConnected(o: Order, m1: Entry, m2: Entry)
    ensures m1 != m2 <==> Before(o, m1, m2) || Before(o, m2, m1)
    ensures !(Before(o, m1, m2) && Before(o, m2, m1))
  {
    CompareAntisymmetric(o, m1, m2);
  }

  /** Both comparators order entries transitively. */
  lemma BeforeTransitive(o: Order, m1: Entry, m2: Entry, m3: Entry)
    requires Before(o, m1, m2) && Before(o, m2, m3)
    ensures Before(o, m1, m3)
  {
    CompareStringsLess(m1.key, m2.key);
    CompareStringsLess(m2.key, m3.key);
    CompareStringsLess(m1.key, m3.key);
    if LexLess(m1.key, m2.key) && LexLess(m2.key, m3.key) {
      CompareStringsTransitive(m1.key, m2.key, m3.key);
    }
  }

  /** "Not after" is transitive too, since only equal entries tie. */
  lemma NotBeforeTransitive(o: Order, m1: Entry, m2: Entry, m3: Entry)
    requires !Before(o, m2, m1) && !Before(o, m3, m2)
    ensures !Before(o, m3, m1)
  {
    BeforeConnected(o, m1, m2);
    BeforeConnected(o, m2, m3);
    if m1 != m2 && m2 != m3 {
      BeforeTransitive(o, m1, m2, m3);
      BeforeConnected(o, m1, m3);
    }
  }

  /** `s` is in the order a priority queue under `o` hands out its entries:
      no entry comes before an entry ahead of it. */
  predicate Sorted(o: Order, s: seq<Entry>) {
    forall i, j {:trigger Before(o, s[j], s[i])} :: 0 <= i < j < |s| ==> !Before(o, s[j], s[i])
  }

  /** Dropping the head keeps a sequence sorted. */
  lemma SortedTail(o: Order, s: seq<Entry>)
    requires Sorted(o, s) && s != []
    ensures Sorted(o, s[1..])
  {
    forall i, j | 0 <= i < j < |s[1..]|
      ensures !Before(o, s[1..][j], s[1..][i])
    {
      assert s[1..][j] == s[j + 1] && s[1..][i] == s[i + 1];
    }
  }

  /** The head of a sorted sequence comes before none of its entries. */
  lemma SortedHead(o: Order, s: seq<Entry>, x: Entry)
    requires Sorted(o, s) && x in s
    ensures !Before(o, x, s[0])
  {
    var j :| 0 <= j < |s| && s[j] == x;
    if j == 0 {
      BeforeIrreflexive(o, x);
    }
  }

  /** Two sorted sequences holding the same entries are the same sequence. */
  lemma {:induction false} SortedUnique(o: Order, s: seq<Entry>, t: seq<Entry>)
    requires Sorted(o, s) && Sorted(o, t) && multiset(s) == multiset(t)
    ensures s == t
    decreases |s|
  {
    if s != [] {
      assert s[0] in multiset(s);
      assert t != [];
      assert t[0] in multiset(t);
      assert s[0] in t && t[0] in s;
      SortedHead(o, t, s[0]);
      SortedHead(o, s, t[0]);
      BeforeConnected(o, s[0], t[0]);
      assert s[0] == t[0];
      assert s == [s[0]] + s[1..] && t == [t[0]] + t[1..];
      assert multiset(s) == multiset{s[0]} + multiset(s[1..]);
      assert multiset(t) == multiset{t[0]} + multiset(t[1..]);
      assert multiset(s[1..]) == multiset(s) - multiset{s[0]};
      assert multiset(t[1..]) == multiset(t) - multiset{t[0]};
      SortedTail(o, s);
      SortedTail(o, t);
      SortedUnique(o, s[1..], t[1..]);
    }
  }
}
