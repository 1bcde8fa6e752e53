/**
 * The example document itself, as the literal the generator reads.
 */
module ExampleRun {
  import opened Ordering
  import opened Frequency
  import opened Selection
  import opened TagCloud
  import opened Example

  /** The six characters of each ExampleChars group, read off the literal. */
  lemma ExampleText0(line: string)
    requires line == "The cat sat on the mat. The cat ran."
    ensures ExampleChars0(line)
  {
  }

  lemma ExampleText1(line: string)
    requires line == "The cat sat on the mat. The cat ran."
    ensures ExampleChars1(line)
  {
  }

  lemma ExampleText2(line: string)
    requires line == "The cat sat on the mat. The cat ran."
    ensures ExampleChars2(line)
  {
  }

  lemma ExampleText3(line: string)
    requires line == "The cat sat on the mat. The cat ran."
    ensures ExampleChars3(line)
  {
  }

  lemma ExampleText4(line: string)
    requires line == "The cat sat on the mat. The cat ran."
    ensures ExampleChars4(line)
  {
  }

  lemma ExampleText5(line: string)
    requires line == "The cat sat on the mat. The cat ran."
    ensures ExampleChars5(line)
  {
  }

  /** The literal spells the example document. */
  lemma ExampleTextIs(line: string)
    requires line == "The cat sat on the mat. The cat ran."
    ensures IsExampleText(line)
  {
    assert |line| == 36;
    ExampleText0(line);
    ExampleText1(line);
    ExampleText2(line);
    ExampleText3(line);
    ExampleText4(line);
    ExampleText5(line);
  }

  /** Every tag cloud of the document "The cat sat on the mat. The cat ran."
      asking for 3 words is cat (count 2, font 29), mat (1, font 11) and
      the (3, font 48), between the counts 1 and 3. */
  lemma ExampleTagCloud(line: string, cloud: seq<Span>, lowest: int, highest: int)
    requires line == "The cat sat on the mat. The cat ran."
    requires IsTagCloud(Frequencies([line]), 3, cloud, lowest, highest)
    ensures cloud == [Span(Entry("cat", 2), 29), Span(Entry("mat", 1), 11), Span(Entry("the", 3), 48)]
    ensures lowest == 1 && highest == 3
  {
    ExampleTextIs(line);
    ExampleFrequencies(line);
    ExampleCloud(cloud, lowest, highest);
  }

  /** main as written, run on the example document asking for 3 words. */
  method ThreeWordsPrinted(line: string) returns (run: Run)
    requires line == "The cat sat on the mat. The cat ran."
    ensures run == Printed([Span(Entry("cat", 2), 29), Span(Entry("mat", 1), 11), Span(Entry("the", 3), 48)], 1, 3)
  {
    run := GenerateTagCloud([line], 3);
    ExampleTextIs(line);
    ExampleFrequencies(line);
    ExampleTableSize();
    ExampleTagCloud(line, run.cloud, run.lowest, run.highest);
  }

  /** main as written, run on the example document asking for no words:
      the table is not empty, so the alphabetical queue is created with
      capacity 0 and its constructor throws. */
  method ZeroWordsRejected(line: string) returns (run: Run)
    requires line == "The cat sat on the mat. The cat ran."
    ensures run == CapacityRejected
  {
    ExampleTextIs(line);
    ExampleFrequencies(line);
    ExampleTableSize();
    run := GenerateTagCloud([line], 0);
  }

  /** main as intended, on the same request: an empty cloud. */
  method ZeroWordsIntended(line: string) returns (cloud: seq<Span>, lowest: int, highest: int)
    requires line == "The cat sat on the mat. The cat ran."
    ensures cloud == [] && lowest == 0 && highest == 0
  {
    cloud, lowest, highest := GenerateTagCloudIntended([line], 0);
    EmptyRequest(Frequencies([line]), 0, cloud, lowest, highest);
  }
}
