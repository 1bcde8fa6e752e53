/**
 * From the frequency table to the printed tag cloud: every entry of the
 * table goes into a queue ordered by MapPairValue, the first `num` entries
 * it hands out go into a queue ordered by MapPairKey, and that queue is
 * drained, printing each word with its font size.
 */
module Selection {
  import opened Ordering
  import opened EntryQueues
  import opened FontScale

  /** The entry (w, c) belongs to the table `m`. */
  predicate InMap(m: map<string, int>, e: Entry) {
    e.key in m && m[e.key] == e.count
  }

  /** `s` lists every entry of the table `m` exactly once and nothing else. */
  ghost predicate Lists(m: map<string, int>, s: seq<Entry>) {
    && |s| == |m|
    && forall e :: multiset(s)[e] == if InMap(m, e) then 1 else 0
  }

  /** nonViewListOfValidMapEntries over the entry set of `m`: every entry of
      the table exactly once, in the unspecified order of the set. */
  method MapEntries(m: map<string, int>) returns (list: seq<Entry>)
    ensures Lists(m, list)
  {
    list := [];
    var rest := m.Keys;
    while rest != {}
      invariant rest <= m.Keys
      invariant |list| + |rest| == |m|
      invariant forall e :: multiset(list)[e] == if InMap(m, e) && e.key !in rest then 1 else 0
      decreases |rest|
    {
      var k :| k in rest;
      var e := Entry(k, m[k]);
      list := list + [e];
      rest := rest - {k};
    }
  }

  /** createCountOrderedQueue: adds every entry of the table to `counts`. */
  method CreateCountOrderedQueue(wordMap: map<string, int>, counts: EntryQueue)
    requires counts.Valid()
    modifies counts
    ensures counts.Valid()
    ensures exists listed :: Lists(wordMap, listed) && multiset(counts.items) == multiset(old(counts.items)) + multiset(listed)
  {
    var list := MapEntries(wordMap);
    ghost var listed := list;
    ghost var before := counts.items;
    ghost var done := 0;
    while |list| > 0
      invariant counts.Valid()
      invariant 0 <= done <= |listed| && list == listed[done..]
      invariant multiset(counts.items) == multiset(before) + multiset(listed[..done])
      decreases |list|
    {
      assert listed[..done + 1] == listed[..done] + [list[0]];
      counts.Add(list[0]);
      list := list[1..];
      done := done + 1;
    }
    assert listed[..done] == listed;
  }

  /** How many entries createAlphOrderedQueue takes from a queue of `size`
      entries: `num` when that many are there (none for a negative `num`),
      and none at all when more are asked for than there are. */
  function Taken(num: int, size: nat): (t: nat)
    ensures t <= size
    ensures 0 <= num <= size ==> t == num
    ensures num < 0 || size < num ==> t == 0
  {
    if 0 <= num <= size then num else 0
  }

  /** One line of the cloud as printWord writes it: the entry and its font. */
  datatype Span = Span(entry: Entry, font: int)

  /** printWord, without the write: the entry with its font size, which is
      a font class of the page for a count between the bounds. */
  function PrintWord(m1: Entry, lowest: int, highest: int): (r: Span)
    ensures r.entry == m1
    ensures lowest <= m1.count <= highest ==> MinFont <= r.font <= MaxFont
  {
    if lowest <= m1.count <= highest then FontSizeRange(lowest, highest, m1.count); Span(m1, CalculateFontSize(lowest, highest, m1.count))
    else Span(m1, CalculateFontSize(lowest, highest, m1.count))
  }

  /** The entries of printed lines, in print order. The pointwise ensures
      repeats the comprehension on purpose: it hands the solver each line's
      entry directly, which the proofs about printed clouds rely on. */
  function Shown(ps: seq<Span>): (es: seq<Entry>)
    ensures |es| == |ps| && forall i :: 0 <= i < |ps| ==> es[i] == ps[i].entry
  {
    seq(|ps|, i requires 0 <= i < |ps| => ps[i].entry)
  }

  /** One step of createAlphOrderedQueue's loop: the head of `countOrder`
      is removed and added to `alph`. */
  method TransferHead(countOrder: EntryQueue, alph: EntryQueue) returns (removed: Entry)
    requires countOrder.Valid() && alph.Valid() && countOrder != alph && countOrder.items != []
    modifies countOrder, alph
    ensures countOrder.Valid() && alph.Valid()
    ensures removed == old(countOrder.items)[0] && countOrder.items == old(countOrder.items)[1..]
    ensures multiset(alph.items) == multiset(old(alph.items)) + multiset{removed}
  {
    removed := countOrder.Remove();
    alph.Add(removed);
  }

  /** The first half of createAlphOrderedQueue: when `num` entries are
      available, moves the first `num` entries of `countOrder` to `alph`,
      noting the count of the first (`highest`) and of the last (`lowest`);
      otherwise moves nothing and both stay 0. */
  method MoveTop(num: int, countOrder: EntryQueue, alph: EntryQueue) returns (lowest: int, highest: int)
    requires countOrder.Valid() && alph.Valid() && countOrder != alph
    modifies countOrder, alph
    ensures countOrder.Valid() && alph.Valid()
    ensures var t := Taken(num, |old(countOrder.items)|);
      && countOrder.items == old(countOrder.items)[t..]
      && highest == (if t > 0 then old(countOrder.items)[0].count else 0)
      && lowest == (if t > 0 then old(countOrder.items)[t - 1].count else 0)
      && multiset(alph.items) == multiset(old(alph.items)) + multiset(old(countOrder.items)[..t])
  {
    highest := 0;
    lowest := 0;
    ghost var ranked := countOrder.items;
    ghost var t := Taken(num, |ranked|);
    ghost var waiting := alph.items;
    if num <= |countOrder.items| {
      var i := 0;
      while i < num
        invariant 0 <= i <= t
        invariant countOrder.Valid() && alph.Valid()
        invariant countOrder.items == ranked[i..]
        invariant multiset(alph.items) == multiset(waiting) + multiset(ranked[..i])
        invariant highest == (if i > 0 then ranked[0].count else 0)
        invariant lowest == (if i > 0 && i == num then ranked[num - 1].count else 0)
      {
        var removed := TransferHead(countOrder, alph);
        assert removed == ranked[i] && ranked[i + 1..] == countOrder.items;
        highest := if i == 0 then removed.count else highest;
        lowest := if i == num - 1 then removed.count else lowest;
        assert ranked[..i + 1] == ranked[..i] + [removed];
        i := i + 1;
      }
      assert i == t;
    } else {
      assert t == 0 && ranked[..0] == [] && ranked[0..] == ranked;
    }
  }

  /** The second half of createAlphOrderedQueue: drains `alph`, printing
      each entry, in the order the queue hands them out, with the font its
      count gets between `lowest` and `highest`. */
  method PrintAll(alph: EntryQueue, lowest: int, highest: int) returns (printed: seq<Span>)
    requires alph.Valid()
    modifies alph
    ensures alph.Valid() && alph.items == []
    ensures Shown(printed) == old(alph.items)
    ensures forall k :: 0 <= k < |printed| ==> printed[k].font == CalculateFontSize(lowest, highest, printed[k].entry.count)
  {
    ghost var inOrder := alph.items;
    printed := [];
    while |alph.items| > 0
      invariant alph.Valid()
      invariant |printed| <= |inOrder| && alph.items == inOrder[|printed|..]
      invariant forall k :: 0 <= k < |printed| ==> printed[k].entry == inOrder[k]
      invariant forall k :: 0 <= k < |printed| ==> printed[k].font == CalculateFontSize(lowest, highest, printed[k].entry.count)
      decreases |alph.items|
    {
      ghost var n := |printed|;
      ghost var queued := alph.items;
      var current := alph.Remove();
      assert queued == [current] + alph.items;
      assert current == inOrder[n] && alph.items == inOrder[n + 1..];
      printed := printed + [PrintWord(current, lowest, highest)];
    }
    assert Shown(printed) == inOrder;
  }

  /** createAlphOrderedQueue: the top `num` entries of `countOrder`, if
      there are that many, join `alph`, and all of `alph` is printed in its
      own order, each word with its font between `lowest` and `highest`. */
  method CreateAlphOrderedQueue(num: int, countOrder: EntryQueue, alph: EntryQueue)
    returns (printed: seq<Span>, lowest: int, highest: int)
    requires countOrder.Valid() && alph.Valid() && countOrder != alph
    modifies countOrder, alph
    ensures countOrder.Valid() && alph.Valid()
    ensures var t := Taken(num, |old(countOrder.items)|);
      && countOrder.items == old(countOrder.items)[t..]
      && highest == (if t > 0 then old(countOrder.items)[0].count else 0)
      && lowest == (if t > 0 then old(countOrder.items)[t - 1].count else 0)
      && multiset(Shown(printed)) == multiset(old(alph.items)) + multiset(old(countOrder.items)[..t])
    ensures Sorted(alph.order, Shown(printed))
    ensures alph.items == []
    ensures forall k :: 0 <= k < |printed| ==> printed[k].font == CalculateFontSize(lowest, highest, printed[k].entry.count)
  {
    lowest, highest := MoveTop(num, countOrder, alph);
    ghost var remaining := countOrder.items;
    printed := PrintAll(alph, lowest, highest);
    assert countOrder.items == remaining;
  }

  /** A queue ordered by MapPairValue hands out non-increasing counts. */
  lemma CountsNonIncreasing(ranked: seq<Entry>, i: nat, j: nat)
    requires Sorted(ByValue, ranked) && i <= j < |ranked|
    ensures ranked[j].count <= ranked[i].count
  {
    if i < j {
      assert !Before(ByValue, ranked[j], ranked[i]);
    }
  }

  /** The first `t` entries of a MapPairValue-ordered queue are the top `t`:
      no remaining entry comes before any of them, so every taken entry comes
      strictly before every entry that differs from it and stays behind. */
  lemma SelectionIsTop(ranked: seq<Entry>, t: nat, x: Entry, y: Entry)
    requires Sorted(ByValue, ranked) && t <= |ranked|
    requires x in ranked[..t] && y in ranked[t..] && x != y
    ensures Before(ByValue, x, y)
  {
    var i :| 0 <= i < t && ranked[..t][i] == x;
    var j :| 0 <= j < |ranked| - t && ranked[t..][j] == y;
    assert ranked[i] == x && ranked[t + j] == y;
    BeforeConnected(ByValue, x, y);
  }

  /** Every taken count lies between the count of the last taken entry
      (`lowest`) and that of the first (`highest`). */
  lemma SelectionBounds(ranked: seq<Entry>, t: nat, e: Entry)
    requires Sorted(ByValue, ranked) && 0 < t <= |ranked| && e in ranked[..t]
    ensures ranked[t - 1].count <= e.count <= ranked[0].count
  {
    var i :| 0 <= i < t && ranked[..t][i] == e;
    CountsNonIncreasing(ranked, 0, i);
    CountsNonIncreasing(ranked, i, t - 1);
  }

  /** A sequence holding the entries of a table: none twice, all distinct
      keys. */
  ghost predicate FromTable(m: map<string, int>, s: seq<Entry>) {
    forall e :: multiset(s)[e] <= if InMap(m, e) then 1 else 0
  }

  /** An entry present at two positions counts twice. */
  lemma TwiceCounted(s: seq<Entry>, i: nat, j: nat)
    requires i < j < |s| && s[i] == s[j]
    ensures multiset(s)[s[i]] >= 2
  {
    assert s == s[..i] + [s[i]] + s[i + 1..j] + [s[j]] + s[j + 1..];
  }

  /** Printed in MapPairKey order, entries of one table come out with
      strictly ascending words. */
  lemma KeysAscending(m: map<string, int>, s: seq<Entry>, i: nat, j: nat)
    requires Sorted(ByKey, s) && FromTable(m, s) && i < j < |s|
    ensures LexLess(s[i].key, s[j].key)
  {
    assert s[i] in multiset(s) && s[j] in multiset(s);
    if s[i] == s[j] {
      TwiceCounted(s, i, j);
    }
    BeforeConnected(ByKey, s[i], s[j]);
  }

  /** Some entry of `s` has the word `w`. */
  predicate HasKey(s: seq<Entry>, w: string) {
    exists i :: 0 <= i < |s| && s[i].key == w
  }

  lemma SliceCount(s: seq<Entry>, t: nat, e: Entry)
    requires t <= |s|
    ensures multiset(s[..t])[e] + multiset(s[t..])[e] == multiset(s)[e]
  {
    assert s == s[..t] + s[t..];
  }

  /** What is shown, a rearrangement of the first `t` entries of a listing
      of the table, holds entries of the table, none twice. */
  lemma ShownFromTable(m: map<string, int>, ranked: seq<Entry>, t: nat, shown: seq<Entry>)
    requires Lists(m, ranked) && t <= |ranked| && multiset(shown) == multiset(ranked[..t])
    ensures FromTable(m, shown)
    ensures forall k :: 0 <= k < |shown| ==> InMap(m, shown[k])
  {
    forall e
      ensures multiset(shown)[e] <= if InMap(m, e) then 1 else 0
    {
      SliceCount(ranked, t, e);
    }
    forall k | 0 <= k < |shown|
      ensures InMap(m, shown[k])
    {
      assert shown[k] in multiset(shown);
    }
  }

  /** What is shown, the first `t` entries of a MapPairValue-ordered listing
      of the table, outranks every word of the table that is not shown. */
  lemma ShownIsTop(m: map<string, int>, ranked: seq<Entry>, t: nat, shown: seq<Entry>, k: nat, w: string)
    requires Lists(m, ranked) && Sorted(ByValue, ranked) && t <= |ranked|
    requires multiset(shown) == multiset(ranked[..t])
    requires k < |shown| && w in m && !HasKey(shown, w)
    ensures Before(ByValue, shown[k], Entry(w, m[w]))
  {
    var x, y := shown[k], Entry(w, m[w]);
    assert x in multiset(shown);
    SliceCount(ranked, t, y);
    assert y !in multiset(shown);
    assert y in ranked[t..];
    SelectionIsTop(ranked, t, x, y);
  }

  /** The counts shown lie between the last and the first taken count, and
      both are shown. */
  lemma ShownBounds(ranked: seq<Entry>, t: nat, shown: seq<Entry>)
    requires Sorted(ByValue, ranked) && 0 < t <= |ranked|
    requires multiset(shown) == multiset(ranked[..t])
    ensures forall k :: 0 <= k < |shown| ==> ranked[t - 1].count <= shown[k].count <= ranked[0].count
    ensures exists k :: 0 <= k < |shown| && shown[k] == ranked[0]
    ensures exists k :: 0 <= k < |shown| && shown[k] == ranked[t - 1]
  {
    forall k | 0 <= k < |shown|
      ensures ranked[t - 1].count <= shown[k].count <= ranked[0].count
    {
      assert shown[k] in multiset(ranked[..t]);
      SelectionBounds(ranked, t, shown[k]);
    }
    assert ranked[..t][0] == ranked[0] && ranked[..t][t - 1] == ranked[t - 1];
    assert ranked[0] in multiset(shown) && ranked[t - 1] in multiset(shown);
  }
}
