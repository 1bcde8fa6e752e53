/**
 * The run of the generator on the one-line document
 * "The cat sat on the mat. The cat ran." asking for 3 words: the table
 * counts the(3), cat(2), sat, on, mat and ran (1 each); the three words kept
 * are the, cat and mat (mat wins the tie among the words counted once,
 * coming first alphabetically); the page lists cat, mat, the with fonts
 * 29, 11 and 48.
 */
module Example {
  import opened Tokenizer
  import opened Frequency
  import opened Ordering
  import opened FontScale
  import opened Selection
  import opened TagCloud

  /** The example document, "The cat sat on the mat. The cat ran.", six
      characters at a time. */
  predicate IsExampleText(line: string) {
    && |line| == 36
    && ExampleChars0(line) && ExampleChars1(line) && ExampleChars2(line)
    && ExampleChars3(line) && ExampleChars4(line) && ExampleChars5(line)
  }

  predicate ExampleChars0(line: string) {
    |line| == 36 && line[0] == 'T' && line[1] == 'h' && line[2] == 'e' && line[3] == ' ' && line[4] == 'c' && line[5] == 'a'
  }

  predicate ExampleChars1(line: string) {
    |line| == 36 && line[6] == 't' && line[7] == ' ' && line[8] == 's' && line[9] == 'a' && line[10] == 't' && line[11] == ' '
  }

  predicate ExampleChars2(line: string) {
    |line| == 36 && line[12] == 'o' && line[13] == 'n' && line[14] == ' ' && line[15] == 't' && line[16] == 'h' && line[17] == 'e'
  }

  predicate ExampleChars3(line: string) {
    |line| == 36 && line[18] == ' ' && line[19] == 'm' && line[20] == 'a' && line[21] == 't' && line[22] == '.' && line[23] == ' '
  }

  predicate ExampleChars4(line: string) {
    |line| == 36 && line[24] == 'T' && line[25] == 'h' && line[26] == 'e' && line[27] == ' ' && line[28] == 'c' && line[29] == 'a'
  }

  predicate ExampleChars5(line: string) {
    |line| == 36 && line[30] == 't' && line[31] == ' ' && line[32] == 'r' && line[33] == 'a' && line[34] == 'n' && line[35] == '.'
  }

  /** The token at `a` is `t`, ending at `b`: the words from `a` on are those
      from `b` on, after `t` lower-cased if it is a word. */
  lemma TokenIs(line: string, a: nat, t: string, b: nat)
    requires b == a + |t| && a < b <= |line|
    requires line[a..b] == t
    requires forall k :: 0 <= k < |t| ==> IsSeparator(t[k]) == IsSeparator(t[0])
    requires b == |line| || IsSeparator(line[b]) != IsSeparator(t[0])
    ensures WordsOf(TokensFrom(line, a)) == (if IsSeparator(t[0]) then [] else [LowerCase(t)]) + WordsOf(TokensFrom(line, b))
  {
    forall j | a <= j < b
      ensures IsSeparator(line[j]) == IsSeparator(t[0])
    {
      assert line[j] == t[j - a];
    }
    RunEndIs(line, a, IsSeparator(t[0]), b);
    TokensFromStep(line, a, t, b);
    WordsOfCons(t, TokensFrom(line, b));
  }
  /** The words of the example document from position 35 on. */
  lemma ExampleWordsFrom35(line: string)
    requires IsExampleText(line)
    ensures WordsOf(TokensFrom(line, 35)) == []
  {
    assert line[35..36] == ".";
    TokenIs(line, 35, ".", 36);
  }

  /** The words of the example document from position 32 on. */
  lemma ExampleWordsFrom32(line: string)
    requires IsExampleText(line)
    ensures WordsOf(TokensFrom(line, 32)) == ["ran"]
  {
    ExampleWordsFrom35(line);
    assert line[32..35] == "ran";
    assert LowerCase("ran") == "ran";
    TokenIs(line, 32, "ran", 35);
  }

  /** The words of the example document from position 31 on. */
  lemma ExampleWordsFrom31(line: string)
    requires IsExampleText(line)
    ensures WordsOf(TokensFrom(line, 31)) == ["ran"]
  {
    ExampleWordsFrom32(line);
    assert line[31..32] == " ";
    TokenIs(line, 31, " ", 32);
  }

  /** The words of the example document from position 28 on. */
  lemma ExampleWordsFrom28(line: string)
    requires IsExampleText(line)
    ensures WordsOf(TokensFrom(line, 28)) == ["cat", "ran"]
  {
    ExampleWordsFrom31(line);
    assert line[28..31] == "cat";
    assert LowerCase("cat") == "cat";
    TokenIs(line, 28, "cat", 31);
  }

  /** The words of the example document from position 27 on. */
  lemma ExampleWordsFrom27(line: string)
    requires IsExampleText(line)
    ensures WordsOf(TokensFrom(line, 27)) == ["cat", "ran"]
  {
    ExampleWordsFrom28(line);
    assert line[27..28] == " ";
    TokenIs(line, 27, " ", 28);
  }

  /** The words of the example document from position 24 on. */
  lemma ExampleWordsFrom24(line: string)
    requires IsExampleText(line)
    ensures WordsOf(TokensFrom(line, 24)) == ["the", "cat", "ran"]
  {
    ExampleWordsFrom27(line);
    assert line[24..27] == "The";
    assert LowerCase("The") == "the";
    TokenIs(line, 24, "The", 27);
  }

  /** The words of the example document from position 22 on. */
  lemma ExampleWordsFrom22(line: string)
    requires IsExampleText(line)
    ensures WordsOf(TokensFrom(line, 22)) == ["the", "cat", "ran"]
  {
    ExampleWordsFrom24(line);
    assert line[22..24] == ". ";
    TokenIs(line, 22, ". ", 24);
  }

  /** The words of the example document from position 19 on. */
  lemma ExampleWordsFrom19(line: string)
    requires IsExampleText(line)
    ensures WordsOf(TokensFrom(line, 19)) == ["mat", "the", "cat", "ran"]
  {
    ExampleWordsFrom22(line);
    assert line[19..22] == "mat";
    assert LowerCase("mat") == "mat";
    TokenIs(line, 19, "mat", 22);
  }

  /** The words of the example document from position 18 on. */
  lemma ExampleWordsFrom18(line: string)
    requires IsExampleText(line)
    ensures WordsOf(TokensFrom(line, 18)) == ["mat", "the", "cat", "ran"]
  {
    ExampleWordsFrom19(line);
    assert line[18..19] == " ";
    TokenIs(line, 18, " ", 19);
  }

  /** The words of the example document from position 15 on. */
  lemma ExampleWordsFrom15(line: string)
    requires IsExampleText(line)
    ensures WordsOf(TokensFrom(line, 15)) == ["the", "mat", "the", "cat", "ran"]
  {
    ExampleWordsFrom18(line);
    assert line[15..18] == "the";
    assert LowerCase("the") == "the";
    TokenIs(line, 15, "the", 18);
  }

  /** The words of the example document from position 14 on. */
  lemma ExampleWordsFrom14(line: string)
    requires IsExampleText(line)
    ensures WordsOf(TokensFrom(line, 14)) == ["the", "mat", "the", "cat", "ran"]
  {
    ExampleWordsFrom15(line);
    assert line[14..15] == " ";
    TokenIs(line, 14, " ", 15);
  }

  /** The words of the example document from position 12 on. */
  lemma ExampleWordsFrom12(line: string)
    requires IsExampleText(line)
    ensures WordsOf(TokensFrom(line, 12)) == ["on", "the", "mat", "the", "cat", "ran"]
  {
    ExampleWordsFrom14(line);
    assert line[12..14] == "on";
    assert LowerCase("on") == "on";
    TokenIs(line, 12, "on", 14);
  }

  /** The words of the example document from position 11 on. */
  lemma ExampleWordsFrom11(line: string)
    requires IsExampleText(line)
    ensures WordsOf(TokensFrom(line, 11)) == ["on", "the", "mat", "the", "cat", "ran"]
  {
    ExampleWordsFrom12(line);
    assert line[11..12] == " ";
    TokenIs(line, 11, " ", 12);
  }

  /** The words of the example document from position 8 on. */
  lemma ExampleWordsFrom8(line: string)
    requires IsExampleText(line)
    ensures WordsOf(TokensFrom(line, 8)) == ["sat", "on", "the", "mat", "the", "cat", "ran"]
  {
    ExampleWordsFrom11(line);
    assert line[8..11] == "sat";
    assert LowerCase("sat") == "sat";
    TokenIs(line, 8, "sat", 11);
  }

  /** The words of the example document from position 7 on. */
  lemma ExampleWordsFrom7(line: string)
    requires IsExampleText(line)
    ensures WordsOf(TokensFrom(line, 7)) == ["sat", "on", "the", "mat", "the", "cat", "ran"]
  {
    ExampleWordsFrom8(line);
    assert line[7..8] == " ";
    TokenIs(line, 7, " ", 8);
  }

  /** The words of the example document from position 4 on. */
  lemma ExampleWordsFrom4(line: string)
    requires IsExampleText(line)
    ensures WordsOf(TokensFrom(line, 4)) == ["cat", "sat", "on", "the", "mat", "the", "cat", "ran"]
  {
    ExampleWordsFrom7(line);
    assert line[4..7] == "cat";
    assert LowerCase("cat") == "cat";
    TokenIs(line, 4, "cat", 7);
  }

  /** The words of the example document from position 3 on. */
  lemma ExampleWordsFrom3(line: string)
    requires IsExampleText(line)
    ensures WordsOf(TokensFrom(line, 3)) == ["cat", "sat", "on", "the", "mat", "the", "cat", "ran"]
  {
    ExampleWordsFrom4(line);
    assert line[3..4] == " ";
    TokenIs(line, 3, " ", 4);
  }

  /** The words of the example document from position 0 on. */
  lemma ExampleWordsFrom0(line: string)
    requires IsExampleText(line)
    ensures WordsOf(TokensFrom(line, 0)) == ["the", "cat", "sat", "on", "the", "mat", "the", "cat", "ran"]
  {
    ExampleWordsFrom3(line);
    assert line[0..3] == "The";
    assert LowerCase("The") == "the";
    TokenIs(line, 0, "The", 3);
  }

  /** The words of the example document, in order. */
  lemma ExampleWords(line: string)
    requires IsExampleText(line)
    ensures DocumentWords([line]) == ["the", "cat", "sat", "on", "the", "mat", "the", "cat", "ran"]
  {
    ExampleWordsFrom0(line);
    assert [line][1..] == [];
  }

  /** The table the example document gives. */
  function ExampleTable(): map<string, int> {
    map["the" := 3, "cat" := 2, "sat" := 1, "on" := 1, "mat" := 1, "ran" := 1]
  }

  /** The example's table holds six words. */
  lemma ExampleTableSize()
    ensures |ExampleTable()| == 6
  {
    assert ExampleTable().Keys == {"the", "cat", "sat", "on", "mat", "ran"};
  }

  /** A word with a later initial letter is not smaller. */
  lemma LaterInitialNotLexLess(a: string, b: string)
    requires a != [] && b != [] && b[0] < a[0]
    ensures !LexLess(a, b)
  {
    CompareStringsLess(a, b);
  }

  /** No word of the table outranks the. */
  lemma NoneOutranksThe(k: string)
    requires k in ExampleTable()
    ensures !Outranks(k, "the")
  {
    LexLessIrreflexive("the");
  }

  /** Only the outranks cat. */
  lemma OnlyTheOutranksCat(k: string)
    requires k in ExampleTable()
    ensures Outranks(k, "cat") ==> k == "the"
  {
    LexLessIrreflexive("cat");
  }

  /** Only the and cat outrank mat: of the words counted once, mat comes
      first alphabetically. */
  lemma OnlyTheCatOutrankMat(k: string)
    requires k in ExampleTable()
    ensures Outranks(k, "mat") ==> k == "the" || k == "cat"
  {
    var t := ExampleTable();
    if t[k] == 1 {
      LexLessIrreflexive("mat");
      LaterInitialNotLexLess("sat", "mat");
      LaterInitialNotLexLess("on", "mat");
      LaterInitialNotLexLess("ran", "mat");
    }
  }

  predicate Outranks(k: string, w: string)
    requires k in ExampleTable() && w in ExampleTable()
  {
    Before(ByValue, Entry(k, ExampleTable()[k]), Entry(w, ExampleTable()[w]))
  }

  /** The words the top three outrank are all the others. */
  ghost predicate TopThree(k0: string, k1: string, k2: string) {
    && k0 in ExampleTable() && k1 in ExampleTable() && k2 in ExampleTable()
    && k0 != k1 && k1 != k2 && k0 != k2
    && forall w :: w in ExampleTable() && w != k0 && w != k1 && w != k2 ==>
         Outranks(k0, w) && Outranks(k1, w) && Outranks(k2, w)
  }

  /** No word outranks the, so it is among the top three. */
  lemma TheIsTop(k0: string, k1: string, k2: string)
    requires TopThree(k0, k1, k2)
    ensures "the" in {k0, k1, k2}
  {
    NoneOutranksThe(k0);
  }

  /** Only the outranks cat, so cat is among the top three. */
  lemma CatIsTop(k0: string, k1: string, k2: string)
    requires TopThree(k0, k1, k2)
    ensures "cat" in {k0, k1, k2}
  {
    OnlyTheOutranksCat(k0);
    OnlyTheOutranksCat(k1);
  }

  /** Only the and cat outrank mat, so mat is the third of the top three. */
  lemma MatIsTop(k0: string, k1: string, k2: string)
    requires TopThree(k0, k1, k2)
    ensures "mat" in {k0, k1, k2}
  {
    OnlyTheCatOutrankMat(k0);
    OnlyTheCatOutrankMat(k1);
    OnlyTheCatOutrankMat(k2);
  }

  /** ... and in ascending alphabetical order they are cat, mat, the. */
  lemma ExampleKeyOrder(k0: string, k1: string, k2: string)
    requires "the" in {k0, k1, k2} && "cat" in {k0, k1, k2} && "mat" in {k0, k1, k2}
    requires LexLess(k0, k1) && LexLess(k1, k2)
    ensures k0 == "cat" && k1 == "mat" && k2 == "the"
  {
    CompareStringsTransitive(k0, k1, k2);
    CompareStringsLess(k0, k1);
    CompareStringsLess(k1, k2);
    CompareStringsLess(k0, k2);
    LaterInitialNotLexLess("mat", "cat");
    LaterInitialNotLexLess("the", "mat");
    LaterInitialNotLexLess("the", "cat");
  }

  lemma ExampleCounts()
    ensures ExampleTable()["cat"] == 2 && ExampleTable()["mat"] == 1 && ExampleTable()["the"] == 3
  {
  }

  /** The words of a three-word cloud of the example table. */
  lemma ExampleCloudKeys(cloud: seq<Span>, lowest: int, highest: int)
    requires IsTagCloud(ExampleTable(), 3, cloud, lowest, highest)
    ensures |cloud| == 3
    ensures cloud[0].entry.key == "cat" && cloud[1].entry.key == "mat" && cloud[2].entry.key == "the"
  {
    var table := ExampleTable();
    ExampleTableSize();
    var shown := Shown(cloud);
    var k0, k1, k2 := cloud[0].entry.key, cloud[1].entry.key, cloud[2].entry.key;
    LexLessIrreflexive(k0);
    LexLessIrreflexive(k1);
    assert LexLess(k0, k1) && LexLess(k1, k2) && LexLess(k0, k2);
    forall w | w in table && w != k0 && w != k1 && w != k2
      ensures Outranks(k0, w) && Outranks(k1, w) && Outranks(k2, w)
    {
      assert !HasKey(shown, w);
    }
    TheIsTop(k0, k1, k2);
    CatIsTop(k0, k1, k2);
    MatIsTop(k0, k1, k2);
    ExampleKeyOrder(k0, k1, k2);
  }

  /** The counts and the bounds of that cloud. */
  lemma ExampleCloudCounts(cloud: seq<Span>, lowest: int, highest: int)
    requires IsTagCloud(ExampleTable(), 3, cloud, lowest, highest)
    requires |cloud| == 3
    requires cloud[0].entry.key == "cat" && cloud[1].entry.key == "mat" && cloud[2].entry.key == "the"
    ensures cloud[0].entry.count == 2 && cloud[1].entry.count == 1 && cloud[2].entry.count == 3
    ensures lowest == 1 && highest == 3
  {
    ExampleCounts();
    assert InMap(ExampleTable(), cloud[0].entry) && InMap(ExampleTable(), cloud[1].entry) && InMap(ExampleTable(), cloud[2].entry);
  }

  /** The fonts of that cloud. */
  lemma ExampleCloudFonts(cloud: seq<Span>, lowest: int, highest: int)
    requires IsTagCloud(ExampleTable(), 3, cloud, lowest, highest)
    requires |cloud| == 3 && lowest == 1 && highest == 3
    requires cloud[0].entry.count == 2 && cloud[1].entry.count == 1 && cloud[2].entry.count == 3
    ensures cloud[0].font == 29 && cloud[1].font == 11 && cloud[2].font == 48
  {
    assert CalculateFontSize(1, 3, 2) == 29;
    FontSizeEnds(1, 3);
  }

  lemma ExampleCloud(cloud: seq<Span>, lowest: int, highest: int)
    requires IsTagCloud(ExampleTable(), 3, cloud, lowest, highest)
    ensures cloud == [Span(Entry("cat", 2), 29), Span(Entry("mat", 1), 11), Span(Entry("the", 3), 48)]
    ensures lowest == 1 && highest == 3
  {
    ExampleCloudKeys(cloud, lowest, highest);
    ExampleCloudCounts(cloud, lowest, highest);
    ExampleCloudFonts(cloud, lowest, highest);
    assert cloud[0] == Span(Entry("cat", 2), 29);
    assert cloud[1] == Span(Entry("mat", 1), 11);
    assert cloud[2] == Span(Entry("the", 3), 48);
  }

  /** Counting the example's first sentence. */
  lemma ExampleCountingFirst()
    ensures AddAll(map[], ["the", "cat", "sat", "on", "the", "mat"])
      == map["the" := 2, "cat" := 1, "sat" := 1, "on" := 1, "mat" := 1]
  {
  }

  /** Counting the example's second sentence on top of the first. */
  lemma ExampleCountingSecond()
    ensures AddAll(map["the" := 2, "cat" := 1, "sat" := 1, "on" := 1, "mat" := 1], ["the", "cat", "ran"])
      == ExampleTable()
  {
  }

  /** Counting the example's words one by one. */
  lemma ExampleCounting()
    ensures AddAll(map[], ["the", "cat", "sat", "on", "the", "mat", "the", "cat", "ran"]) == ExampleTable()
  {
    var first, second := ["the", "cat", "sat", "on", "the", "mat"], ["the", "cat", "ran"];
    assert first + second == ["the", "cat", "sat", "on", "the", "mat", "the", "cat", "ran"];
    ExampleCountingFirst();
    ExampleCountingSecond();
    AddAllAppend(map[], first, second);
  }

  /** The frequency table of the example document. */
  lemma ExampleFrequencies(line: string)
    requires IsExampleText(line)
    ensures Frequencies([line]) == ExampleTable()
  {
    ExampleWords(line);
    ExampleCounting();
  }


}
