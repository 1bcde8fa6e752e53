/**
 * The generator's priority queues of entries. A queue is modelled by the
 * sequence of its entries in the order `remove` hands them out, kept sorted
 * under the queue's comparator; the binary heap behind java.util.PriorityQueue
 * is not modelled.
 */
module EntryQueues {
  import opened Ordering

  /** The index of the first entry of `s` that `e` comes before, or `|s|`
      when there is none. */
  function InsertPos(o: Order, s: seq<Entry>, e: Entry): (p: nat)
    ensures p <= |s|
    ensures forall j :: 0 <= j < p ==> !Before(o, e, s[j])
    ensures p < |s| ==> Before(o, e, s[p])
    decreases |s|
  {
    if s == [] || Before(o, e, s[0]) then 0 else 1 + InsertPos(o, s[1..], e)
  }

  /** Where `add` places an entry: ahead of the first entry it comes before. */
  function Insert(o: Order, s: seq<Entry>, e: Entry): (r: seq<Entry>)
    ensures |r| == |s| + 1
    decreases |s|
  {
    if s == [] || Before(o, e, s[0]) then [e] + s else [s[0]] + Insert(o, s[1..], e)
  }

  /** Inserting splices the entry in at InsertPos and moves nothing else. */
  lemma {:induction false} InsertSplices(o: Order, s: seq<Entry>, e: Entry)
    ensures var p := InsertPos(o, s, e); Insert(o, s, e) == s[..p] + [e] + s[p..]
    decreases |s|
  {
    if s != [] && !Before(o, e, s[0]) {
      var p := InsertPos(o, s[1..], e);
      InsertSplices(o, s[1..], e);
      assert s[..p + 1] == [s[0]] + s[1..][..p] && s[p + 1..] == s[1..][p..];
    }
  }

  /** Inserting adds exactly the one entry. */
  lemma {:induction false} InsertMultiset(o: Order, s: seq<Entry>, e: Entry)
    ensures multiset(Insert(o, s, e)) == multiset(s) + multiset{e}
    decreases |s|
  {
    if s != [] && !Before(o, e, s[0]) {
      InsertMultiset(o, s[1..], e);
      assert s == [s[0]] + s[1..];
    }
  }

  /** Putting an entry that comes before the head in front keeps a sorted
      sequence sorted. */
  lemma InsertFrontSorted(o: Order, s: seq<Entry>, e: Entry)
    requires Sorted(o, s) && s != [] && Before(o, e, s[0])
    ensures Sorted(o, [e] + s)
  {
    var r := [e] + s;
    forall i, j | 0 <= i < j < |r|
      ensures !Before(o, r[j], r[i])
    {
      if i == 0 {
        assert r[j] == s[j - 1];
        if j - 1 > 0 {
          assert !Before(o, s[j - 1], s[0]);
        }
        if Before(o, s[j - 1], e) {
          BeforeTransitive(o, s[j - 1], e, s[0]);
          BeforeIrreflexive(o, s[0]);
        }
      } else {
        assert r[i] == s[i - 1] && r[j] == s[j - 1];
      }
    }
  }

  /** Putting the head in front of a sorted sequence holding the rest and
      an entry that does not come before the head keeps it sorted. */
  lemma InsertBehindSorted(o: Order, s: seq<Entry>, e: Entry, rest: seq<Entry>)
    requires Sorted(o, s) && s != [] && !Before(o, e, s[0])
    requires Sorted(o, rest) && multiset(rest) == multiset(s[1..]) + multiset{e}
    ensures Sorted(o, [s[0]] + rest)
  {
    var r := [s[0]] + rest;
    forall i, j | 0 <= i < j < |r|
      ensures !Before(o, r[j], r[i])
    {
      if i == 0 {
        assert r[j] == rest[j - 1];
        assert rest[j - 1] in multiset(rest);
        if rest[j - 1] != e {
          assert rest[j - 1] in s[1..];
          var k :| 0 <= k < |s[1..]| && s[1..][k] == rest[j - 1];
          assert s[k + 1] == rest[j - 1];
        }
      } else {
        assert r[i] == rest[i - 1] && r[j] == rest[j - 1];
      }
    }
  }

  /** Inserting into a sorted sequence leaves it sorted. */
  lemma {:induction false} InsertSorted(o: Order, s: seq<Entry>, e: Entry)
    requires Sorted(o, s)
    ensures Sorted(o, Insert(o, s, e))
    decreases |s|
  {
    if s == [] {
    } else if Before(o, e, s[0]) {
      InsertFrontSorted(o, s, e);
    } else {
      SortedTail(o, s);
      InsertSorted(o, s[1..], e);
      InsertMultiset(o, s[1..], e);
      InsertBehindSorted(o, s, e, Insert(o, s[1..], e));
    }
  }

  /** A java.util.PriorityQueue of entries under one of the two comparators. */
  class EntryQueue {
    /** The comparator the queue was built with. */
    const order: Order
    /** The entries, in the order `remove` will hand them out. */
    var items: seq<Entry>

    ghost predicate Valid()
      reads this
    {
      Sorted(order, items)
    }

    /** An empty queue with the given comparator. */
    constructor (order: Order)
      ensures Valid() && this.order == order && items == []
    {
      this.order := order;
      items := [];
    }

    /** `add`: the queue gains the entry and stays in comparator order. */
    method Add(e: Entry)
      requires Valid()
      modifies this
      ensures Valid()
      ensures items == Insert(order, old(items), e)
      ensures multiset(items) == multiset(old(items)) + multiset{e}
    {
      InsertSorted(order, items, e);
      InsertMultiset(order, items, e);
      items := Insert(order, items, e);
    }

    /** `remove`: hands out and drops the head, an entry that no other entry
        of the queue comes before. */
    method Remove() returns (e: Entry)
      requires Valid() && items != []
      modifies this
      ensures Valid()
      ensures old(items) == [e] + items
      ensures forall x :: x in old(items) ==> !Before(order, x, e)
    {
      e := items[0];
      forall x | x in items
        ensures !Before(order, x, e)
      {
        SortedHead(order, items, x);
      }
      SortedTail(order, items);
      items := items[1..];
    }
  }
}
