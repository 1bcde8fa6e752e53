/**
 * The tag cloud as main builds it: the frequency table of the document,
 * a queue of its entries ordered by MapPairValue, and the top `num` entries
 * printed alphabetically with their font sizes.
 */
module TagCloud {
  import opened Ordering
  import opened EntryQueues
  import opened FontScale
  import opened Frequency
  import opened Selection

  /** What main prints for the frequency table `table` and the request for
      `num` words: `num` entries of the table when it has that many (none
      otherwise), the top entries of the table in alphabetical order, with
      fonts scaled between the smallest and the largest count shown. */
  ghost predicate IsTagCloud(table: map<string, int>, num: int, cloud: seq<Span>, lowest: int, highest: int) {
    && |cloud| == Taken(num, |table|)
    && TopEntries(table, cloud)
    && Scaled(cloud, lowest, highest)
  }

  /** The cloud holds entries of the table in strictly ascending
      alphabetical order, each outranking in MapPairValue order every word
      left out. */
  ghost predicate TopEntries(table: map<string, int>, cloud: seq<Span>) {
    && (forall k :: 0 <= k < |cloud| ==> InMap(table, cloud[k].entry))
    && (forall i, j :: 0 <= i < j < |cloud| ==> LexLess(cloud[i].entry.key, cloud[j].entry.key))
    && (forall k, w :: 0 <= k < |cloud| && w in table && !HasKey(Shown(cloud), w) ==>
          Before(ByValue, cloud[k].entry, Entry(w, table[w])))
  }

  /** `lowest` and `highest` are the smallest and the largest count of the
      cloud (both 0 for an empty cloud), and every entry has the font its
      count gets between them. */
  ghost predicate Scaled(cloud: seq<Span>, lowest: int, highest: int) {
    && (forall k :: 0 <= k < |cloud| ==> lowest <= cloud[k].entry.count <= highest)
    && (cloud != [] ==>
          && (exists k :: 0 <= k < |cloud| && cloud[k].entry.count == lowest)
          && (exists k :: 0 <= k < |cloud| && cloud[k].entry.count == highest))
    && (cloud == [] ==> lowest == 0 && highest == 0)
    && (forall k :: 0 <= k < |cloud| ==>
          && cloud[k].font == CalculateFontSize(lowest, highest, cloud[k].entry.count)
          && MinFont <= cloud[k].font <= MaxFont)
  }

  /** The first `t` entries of a MapPairValue-ordered listing of the table,
      printed in MapPairKey order, are the table's top entries. */
  lemma PrintedTopEntries(table: map<string, int>, ranked: seq<Entry>, t: nat, cloud: seq<Span>)
    requires Lists(table, ranked) && Sorted(ByValue, ranked) && t <= |ranked|
    requires multiset(Shown(cloud)) == multiset(ranked[..t])
    requires Sorted(ByKey, Shown(cloud))
    ensures TopEntries(table, cloud)
  {
    var shown := Shown(cloud);
    ShownFromTable(table, ranked, t, shown);
    forall i, j | 0 <= i < j < |cloud|
      ensures LexLess(cloud[i].entry.key, cloud[j].entry.key)
    {
      KeysAscending(table, shown, i, j);
    }
    forall k, w | 0 <= k < |cloud| && w in table && !HasKey(shown, w)
      ensures Before(ByValue, cloud[k].entry, Entry(w, table[w]))
    {
      ShownIsTop(table, ranked, t, shown, k, w);
    }
  }

  /** With `highest` the first and `lowest` the last of those counts, every
      printed font is scaled between them. */
  lemma PrintedScaled(ranked: seq<Entry>, t: nat, cloud: seq<Span>, lowest: int, highest: int)
    requires Sorted(ByValue, ranked) && t <= |ranked|
    requires multiset(Shown(cloud)) == multiset(ranked[..t]) && |cloud| == t
    requires highest == (if t > 0 then ranked[0].count else 0)
    requires lowest == (if t > 0 then ranked[t - 1].count else 0)
    requires forall k :: 0 <= k < |cloud| ==> cloud[k].font == CalculateFontSize(lowest, highest, cloud[k].entry.count)
    ensures Scaled(cloud, lowest, highest)
  {
    if t > 0 {
      ShownBounds(ranked, t, Shown(cloud));
      forall k | 0 <= k < |cloud|
        ensures MinFont <= cloud[k].font <= MaxFont
      {
        FontSizeRange(lowest, highest, cloud[k].entry.count);
      }
    }
  }

  /** Draining the alphabetical queue filled from a MapPairValue-ordered
      listing of the table prints a tag cloud of the table. */
  lemma PrintedIsTagCloud(table: map<string, int>, ranked: seq<Entry>, num: int, cloud: seq<Span>, lowest: int, highest: int)
    requires Lists(table, ranked) && Sorted(ByValue, ranked)
    requires var t := Taken(num, |ranked|);
      && multiset(Shown(cloud)) == multiset(ranked[..t])
      && highest == (if t > 0 then ranked[0].count else 0)
      && lowest == (if t > 0 then ranked[t - 1].count else 0)
    requires Sorted(ByKey, Shown(cloud))
    requires forall k :: 0 <= k < |cloud| ==> cloud[k].font == CalculateFontSize(lowest, highest, cloud[k].entry.count)
    ensures IsTagCloud(table, num, cloud, lowest, highest)
  {
    var t := Taken(num, |ranked|);
    assert |cloud| == |multiset(Shown(cloud))| == |multiset(ranked[..t])| == t;
    PrintedTopEntries(table, ranked, t, cloud);
    PrintedScaled(ranked, t, cloud, lowest, highest);
  }

  /** The outcome of main once the document is read: the cloud printed
      between the page's header and footer, or the IllegalArgumentException
      java.util.PriorityQueue raises when the alphabetical queue is created
      with a capacity below 1. */
  datatype Run = Printed(cloud: seq<Span>, lowest: int, highest: int) | CapacityRejected

  /** The two queues of main for a non-empty table: every entry into the
      MapPairValue queue, then the top `num` of them through the MapPairKey
      queue onto the page. */
  method FillQueues(wordMap: map<string, int>, num: int) returns (cloud: seq<Span>, lowest: int, highest: int)
    requires |wordMap| > 0
    ensures IsTagCloud(wordMap, num, cloud, lowest, highest)
  {
    var highestCount := new EntryQueue(ByValue);
    CreateCountOrderedQueue(wordMap, highestCount);
    ghost var ranked := highestCount.items;
    ghost var listed :| Lists(wordMap, listed) && multiset(ranked) == multiset([]) + multiset(listed);
    assert Lists(wordMap, ranked) by {
      assert |ranked| == |multiset(ranked)| == |multiset(listed)| == |listed|;
    }
    var alphabetized := new EntryQueue(ByKey);
    cloud, lowest, highest := CreateAlphOrderedQueue(num, highestCount, alphabetized);
    PrintedIsTagCloud(wordMap, ranked, num, cloud, lowest, highest);
  }

  /** main as written: nothing is printed for an empty table; otherwise a
      request for fewer than one word makes the alphabetical queue's
      constructor throw, and any other request prints the tag cloud. */
  method GenerateTagCloud(lines: seq<string>, num: int) returns (run: Run)
    ensures run.CapacityRejected? <==> |Frequencies(lines)| > 0 && num < 1
    ensures run.Printed? ==> IsTagCloud(Frequencies(lines), num, run.cloud, run.lowest, run.highest)
  {
    var wordMap := MapCreator(lines);
    if |wordMap| == 0 {
      run := Printed([], 0, 0);
    } else if num < 1 {
      run := CapacityRejected;
    } else {
      var cloud, lowest, highest := FillQueues(wordMap, num);
      run := Printed(cloud, lowest, highest);
    }
  }

  /** main as intended: the alphabetical queue is created whatever `num` is,
      so a request for no words prints an empty cloud. */
  method GenerateTagCloudIntended(lines: seq<string>, num: int) returns (cloud: seq<Span>, lowest: int, highest: int)
    ensures IsTagCloud(Frequencies(lines), num, cloud, lowest, highest)
  {
    var wordMap := MapCreator(lines);
    cloud, lowest, highest := [], 0, 0;
    if |wordMap| > 0 {
      cloud, lowest, highest := FillQueues(wordMap, num);
    }
  }

  /** Asking for no words, or for fewer than one, leaves nothing to print. */
  lemma EmptyRequest(table: map<string, int>, num: int, cloud: seq<Span>, lowest: int, highest: int)
    requires num < 1 && IsTagCloud(table, num, cloud, lowest, highest)
    ensures cloud == [] && lowest == 0 && highest == 0
  {
  }

  /** Asking for more words than the table holds prints nothing either. */
  lemma OversizedRequest(table: map<string, int>, num: int, cloud: seq<Span>, lowest: int, highest: int)
    requires num > |table| && IsTagCloud(table, num, cloud, lowest, highest)
    ensures cloud == [] && lowest == 0 && highest == 0
  {
  }

  /** The words of a cloud. */
  function KeysOf(cloud: seq<Span>): set<string> {
    if cloud == [] then {} else {cloud[0].entry.key} + KeysOf(cloud[1..])
  }

  lemma {:induction false} KeysOfHasKey(cloud: seq<Span>, w: string)
    ensures w in KeysOf(cloud) <==> HasKey(Shown(cloud), w)
  {
    if cloud != [] {
      KeysOfHasKey(cloud[1..], w);
      if HasKey(Shown(cloud[1..]), w) {
        var i :| 0 <= i < |cloud| - 1 && Shown(cloud[1..])[i].key == w;
        assert Shown(cloud)[i + 1].key == w;
      }
      if HasKey(Shown(cloud), w) && cloud[0].entry.key != w {
        var i :| 0 <= i < |cloud| && Shown(cloud)[i].key == w;
        assert Shown(cloud[1..])[i - 1].key == w;
      }
    }
  }

  /** A cloud whose words are all different has as many words as lines. */
  lemma {:induction false} KeysOfSize(cloud: seq<Span>)
    requires forall i, j :: 0 <= i < j < |cloud| ==> cloud[i].entry.key != cloud[j].entry.key
    ensures |KeysOf(cloud)| == |cloud|
  {
    if cloud != [] {
      var rest := cloud[1..];
      KeysOfSize(rest);
      KeysOfHasKey(rest, cloud[0].entry.key);
      forall i | 0 <= i < |rest|
        ensures Shown(rest)[i].key != cloud[0].entry.key
      {
        assert Shown(rest)[i] == cloud[i + 1].entry;
      }
    }
  }

  /** The words of a tag cloud are all different. */
  lemma DistinctKeys(table: map<string, int>, cloud: seq<Span>)
    requires TopEntries(table, cloud)
    ensures forall i, j :: 0 <= i < j < |cloud| ==> cloud[i].entry.key != cloud[j].entry.key
  {
    forall i, j | 0 <= i < j < |cloud|
      ensures cloud[i].entry.key != cloud[j].entry.key
    {
      LexLessIrreflexive(cloud[i].entry.key);
    }
  }

  /** Of two tag clouds of one table with as many lines, every word of the
      first is a word of the second: a word shown only in the first and a
      word shown only in the second would each outrank the other. */
  lemma KeysIncluded(table: map<string, int>, c1: seq<Span>, c2: seq<Span>)
    requires TopEntries(table, c1) && TopEntries(table, c2) && |c1| == |c2|
    ensures KeysOf(c1) <= KeysOf(c2)
  {
    var k1, k2 := KeysOf(c1), KeysOf(c2);
    DistinctKeys(table, c1);
    DistinctKeys(table, c2);
    KeysOfSize(c1);
    KeysOfSize(c2);
    if w :| w in k1 && w !in k2 {
      assert k2 !! (k1 - k2) && k2 + (k1 - k2) == k2 + k1;
      assert |k2 + k1| > |k2|;
      var y :| y in k2 && y !in k1;
      KeysOfHasKey(c1, w);
      KeysOfHasKey(c2, w);
      KeysOfHasKey(c1, y);
      KeysOfHasKey(c2, y);
      var i :| 0 <= i < |c1| && Shown(c1)[i].key == w;
      var j :| 0 <= j < |c2| && Shown(c2)[j].key == y;
      assert InMap(table, c1[i].entry) && InMap(table, c2[j].entry);
      assert Before(ByValue, c1[i].entry, c2[j].entry);
      assert Before(ByValue, c2[j].entry, c1[i].entry);
      BeforeConnected(ByValue, c1[i].entry, c2[j].entry);
    }
  }

  /** An entry of a sequence without repetitions occurs in it once. */
  lemma {:induction false} CountOnce(s: seq<Entry>, e: Entry)
    requires forall i, j :: 0 <= i < j < |s| ==> s[i] != s[j]
    ensures multiset(s)[e] == if e in s then 1 else 0
  {
    if s != [] {
      CountOnce(s[1..], e);
      assert s == [s[0]] + s[1..];
      forall j | 0 <= j < |s| - 1
        ensures s[1..][j] != s[0]
      {
        assert s[1..][j] == s[j + 1];
      }
    }
  }

  /** A tag cloud lists its entries in MapPairKey order, each once. */
  lemma ShownSortedByKey(table: map<string, int>, cloud: seq<Span>)
    requires TopEntries(table, cloud)
    ensures Sorted(ByKey, Shown(cloud))
    ensures forall i, j :: 0 <= i < j < |cloud| ==> Shown(cloud)[i] != Shown(cloud)[j]
  {
    var s := Shown(cloud);
    DistinctKeys(table, cloud);
    forall i, j | 0 <= i < j < |s|
      ensures !Before(ByKey, s[j], s[i])
    {
      BeforeConnected(ByKey, s[i], s[j]);
    }
  }

  /** Two tag clouds of one table with as many lines show the same entries
      in the same order. */
  lemma SameShown(table: map<string, int>, c1: seq<Span>, c2: seq<Span>)
    requires TopEntries(table, c1) && TopEntries(table, c2) && |c1| == |c2|
    ensures Shown(c1) == Shown(c2)
  {
    KeysIncluded(table, c1, c2);
    KeysIncluded(table, c2, c1);
    ShownSortedByKey(table, c1);
    ShownSortedByKey(table, c2);
    var s1, s2 := Shown(c1), Shown(c2);
    forall e
      ensures multiset(s1)[e] == multiset(s2)[e]
    {
      CountOnce(s1, e);
      CountOnce(s2, e);
      KeysOfHasKey(c1, e.key);
      KeysOfHasKey(c2, e.key);
      if e in s1 {
        var i :| 0 <= i < |s1| && s1[i] == e;
        var j :| 0 <= j < |s2| && s2[j].key == e.key;
        assert InMap(table, c1[i].entry) && InMap(table, c2[j].entry);
        assert s2[j] == e;
      }
      if e in s2 {
        var j :| 0 <= j < |s2| && s2[j] == e;
        var i :| 0 <= i < |s1| && s1[i].key == e.key;
        assert InMap(table, c1[i].entry) && InMap(table, c2[j].entry);
        assert s1[i] == e;
      }
    }
    assert multiset(s1) == multiset(s2);
    SortedUnique(ByKey, s1, s2);
  }

  /** The bounds of clouds showing the same entries are the same. */
  lemma SameBounds(c1: seq<Span>, l1: int, h1: int, c2: seq<Span>, l2: int, h2: int)
    requires Scaled(c1, l1, h1) && Scaled(c2, l2, h2) && Shown(c1) == Shown(c2)
    ensures l1 == l2 && h1 == h2
  {
    if c1 != [] {
      assert forall k :: 0 <= k < |c1| ==> c1[k].entry == Shown(c1)[k] == Shown(c2)[k] == c2[k].entry;
      var a :| 0 <= a < |c1| && c1[a].entry.count == l1;
      var b :| 0 <= b < |c2| && c2[b].entry.count == l2;
      var x :| 0 <= x < |c1| && c1[x].entry.count == h1;
      var y :| 0 <= y < |c2| && c2[y].entry.count == h2;
      assert l2 <= c2[a].entry.count && l1 <= c1[b].entry.count;
      assert c1[y].entry.count <= h1 && c2[x].entry.count <= h2;
    }
  }

  /** The printed page is determined: two tag clouds for the same table and
      request, with their bounds, are the same. */
  lemma TagCloudDetermined(table: map<string, int>, num: int, c1: seq<Span>, l1: int, h1: int, c2: seq<Span>, l2: int, h2: int)
    requires IsTagCloud(table, num, c1, l1, h1) && IsTagCloud(table, num, c2, l2, h2)
    ensures c1 == c2 && l1 == l2 && h1 == h2
  {
    SameShown(table, c1, c2);
    SameBounds(c1, l1, h1, c2, l2, h2);
    forall k | 0 <= k < |c1|
      ensures c1[k] == c2[k]
    {
      assert c1[k].entry == Shown(c1)[k] == Shown(c2)[k] == c2[k].entry;
    }
  }
}
