# Tag cloud generator — a verified model

The generator reads a text document. It cuts every line into maximal runs of
word characters and of separator characters. It counts every word,
lower-cased, in a frequency table. It then keeps the `num` words with the
highest counts, breaking ties alphabetically. Finally it prints those words
in alphabetical order on an HTML page, each with a font class between 11 and
48 scaled from its count.

This project models that core in Dafny:

- `tokenizer.dfy`, module `Tokenizer`: the separator set and
  `nextWordOrSeparator` (an imperative scan with two loops). It also defines
  the token sequence of a line, which cuts the line without gap or overlap.
- `frequency.dfy`, module `Frequency`: `mapCreator`, the nested loops that
  fill the table. It is proved equal to a fold of the document's words, and
  the table it builds is characterised word by word.
- `ordering.dfy`, module `Ordering`: `String.compareTo`,
  `Integer.compareTo`, and the comparators `MapPairValue` and `MapPairKey`.
  Both comparators are proved to be total orders.
- `queue.dfy`, module `EntryQueues`: `java.util.PriorityQueue`, as a class
  whose entries are kept in the order `remove` hands them out.
- `selection.dfy`, module `Selection`: `nonViewListOfValidMapEntries`,
  `createCountOrderedQueue`, `createAlphOrderedQueue` and `printWord`
  without the writes. The selection is proved to be the top `num` entries
  and its bounds are proved.
- `fontscale.dfy`, module `FontScale`: `calculateFontSize`, with Java's
  truncating division.
- `cloud.dfy`, module `TagCloud`: the part of `main` from the table to the
  printed cloud. The predicate `IsTagCloud` states everything the page
  shows.
- `example.dfy` and `example_run.dfy`, modules `Example` and `ExampleRun`:
  the document "The cat sat on the mat. The cat ran." asking for 3 words.
  - The page lists cat (font 29), mat (font 11) and the (font 48).
  - Asking for 0 words makes `main` throw.

The source's integers are Java `int`, but the model uses unbounded `int`
(see "Left out").

Where the code and the specification of the program disagree, the model
follows the code:

- **A request for 0 words, or a negative number.** For a document with at
  least one word, the code throws; see "Findings". For an empty document
  the queue that throws is never created, and nothing is printed.
- **A request for more words than the document holds.** The code prints a
  message on standard error. It still prints the page, with an empty cloud,
  and `lowest` and `highest` stay 0. It does not stop before rendering.
- **An empty document.** The code prints no cloud. It also skips the page
  footer and never closes the output file; the model covers only the empty
  cloud.

## Model

| member | source | states |
|---|---|---|
| Tokenizer.IsSeparator | src/TagCloudGenerator.java:108 | the separator test, one comparison per distinct character of `separator`; no ASCII letter or digit is a separator |
| Tokenizer.IsSeparatorIsMembership | src/TagCloudGenerator.java:33 | the separator test is exactly membership in the separator string `separator` |
| Tokenizer.RunEnd | src/TagCloudGenerator.java:270-282 | the end of the run from `i` is the first index of the other class, or the end of the text |
| Tokenizer.RunEndIs | src/TagCloudGenerator.java:270-282 | any index meeting that description is the run's end |
| Tokenizer.TokenAt | src/TagCloudGenerator.java:261-286 | the token at a position is non-empty and fits in the text |
| Tokenizer.TokenAtIsMaximalRun | src/TagCloudGenerator.java:244-259 | the token meets the documented contract: a slice at `position`, all of the class of its first character, not extendable |
| Tokenizer.MaximalRunUnique | src/TagCloudGenerator.java:244-259 | the documented contract has exactly one solution |
| Tokenizer.NextWordOrSeparator | src/TagCloudGenerator.java:261-286 | the loops return the maximal single-class run at `position`, as documented |
| Tokenizer.TokensConcat | src/TagCloudGenerator.java:102-121 | advancing by each token's length cuts the line into tokens that concatenate back to it |
| Tokenizer.TokensSingleClass | src/TagCloudGenerator.java:102-121 | every token met while scanning is non-empty and all of one class |
| Tokenizer.TokensAlternate | src/TagCloudGenerator.java:244-259 | neighbouring tokens are of opposite classes, and the first token starts at the first character |
| Tokenizer.FirstCharDecides | src/TagCloudGenerator.java:108 | testing a token's first character decides whether the whole token is a separator run or a word |
| Frequency.LowerCase | src/TagCloudGenerator.java:106 | lower-casing keeps the length |
| Frequency.LowerCaseSpec | src/TagCloudGenerator.java:106 | the result has no upper-case letter, and each character is the original's lower-case form |
| Frequency.ToLowerKeepsClass | src/TagCloudGenerator.java:106-108 | lower-casing never changes a character's separator class, so testing after lower-casing is testing the token |
| Frequency.WordsOfCount | src/TagCloudGenerator.java:102-119 | a word's occurrences in the word list equal the number of word tokens that lower-case to it |
| Frequency.DocumentWordsCount | src/TagCloudGenerator.java:101-126 | the same holds over all lines of the document |
| Frequency.Increment | src/TagCloudGenerator.java:111-118 | counting a word adds it to the table's words, raises its count by one (from 0 for a new word) and changes no other count |
| Frequency.AddAllCounts | src/TagCloudGenerator.java:111-118 | counting a word list adds each word's number of occurrences and introduces exactly the words listed |
| Frequency.AddAllAppend | src/TagCloudGenerator.java:101-126 | counting two word lists in turn is counting their concatenation |
| Frequency.WordsOfAreWords | src/TagCloudGenerator.java:106-108 | every counted word of a line is non-empty, lower-case and separator-free |
| Frequency.DocumentWordsAreWords | src/TagCloudGenerator.java:101-126 | the same for every line of the document |
| Frequency.FrequenciesSpec | src/TagCloudGenerator.java:84-88 | a word is a key of the table exactly when some token lower-cases to it; every key is a valid word, and its value, at least 1, is the number of such tokens |
| Frequency.SeparatorTokenIgnored | src/TagCloudGenerator.java:107-108 | a separator token adds no word |
| Frequency.CountTokenThenAddAll | src/TagCloudGenerator.java:106-119 | counting one token is counting its word, if it has one |
| Frequency.ScanLineCountsWords | src/TagCloudGenerator.java:102-123 | the inner loop over a line counts exactly the line's words |
| Frequency.ScanLinesCountsWords | src/TagCloudGenerator.java:101-126 | the outer loop counts exactly the document's words |
| Frequency.MapCreator | src/TagCloudGenerator.java:90-134 | the loops build exactly the frequency table of the document |
| Ordering.CompareStrings | src/TagCloudGenerator.java:47 | `String.compareTo` as called by both comparators is 0 exactly when the strings are equal |
| Ordering.CompareStringsDocumented | src/TagCloudGenerator.java:47 | at the first index where the strings differ the result is the difference of the characters there; when one string is a prefix of the other it is the difference of the lengths |
| Ordering.CompareStringsAntisymmetric | src/TagCloudGenerator.java:66 | swapping the strings negates `compareTo` |
| Ordering.LexLessTail | src/TagCloudGenerator.java:66 | for strings with the same first character, the order is decided by the rest |
| Ordering.CompareStringsLess | src/TagCloudGenerator.java:66 | `compareTo` is negative exactly when the first string is lexicographically smaller |
| Ordering.LexLessIrreflexive | src/TagCloudGenerator.java:66 | no word is alphabetically smaller than itself |
| Ordering.CompareStringsTransitive | src/TagCloudGenerator.java:66 | the lexicographic order is transitive |
| Ordering.CompareInts | src/TagCloudGenerator.java:45 | `Integer.compareTo` is -1, 0 or 1 as the first is below, equal to or above the second |
| Ordering.CompareByValue | src/TagCloudGenerator.java:38-55 | MapPairValue is 0 only for equal entries, and negative exactly when the first has the higher count or an equal count and a smaller word |
| Ordering.CompareByKey | src/TagCloudGenerator.java:60-78 | MapPairKey is 0 only for equal entries, and negative exactly when the first word is smaller, or the words are equal and the first count is lower |
| Ordering.CompareAntisymmetric | src/TagCloudGenerator.java:38-78 | both comparators flip sign when the entries are swapped, and tie only on equal entries |
| Ordering.BeforeIrreflexive | src/TagCloudGenerator.java:38-78 | no entry comes before itself |
| Ordering.BeforeConnected | src/TagCloudGenerator.java:38-78 | of two distinct entries exactly one comes first |
| Ordering.BeforeTransitive | src/TagCloudGenerator.java:38-78 | "comes before" is transitive under both comparators |
| Ordering.NotBeforeTransitive | src/TagCloudGenerator.java:38-78 | "does not come after" is transitive too |
| Ordering.SortedTail | src/TagCloudGenerator.java:347 | removing the head of a queue leaves it in order |
| Ordering.SortedHead | src/TagCloudGenerator.java:347 | the head of a queue comes after none of its entries |
| Ordering.SortedUnique | src/TagCloudGenerator.java:365-369 | a queue's removal order is fixed by its entries |
| EntryQueues.InsertPos | src/TagCloudGenerator.java:356 | the index where `add` places an entry: the entry comes before no entry ahead of it, and before the entry at it |
| EntryQueues.Insert | src/TagCloudGenerator.java:356 | `add` makes the queue one entry longer |
| EntryQueues.InsertSplices | src/TagCloudGenerator.java:356 | `add` splices the entry in at that index and moves nothing else |
| EntryQueues.InsertMultiset | src/TagCloudGenerator.java:390 | `add` adds exactly the one entry |
| EntryQueues.InsertSorted | src/TagCloudGenerator.java:390 | `add` keeps the queue in comparator order |
| EntryQueues.EntryQueue.constructor | src/TagCloudGenerator.java:445-451 | a new queue is empty and carries its comparator |
| EntryQueues.EntryQueue.Add | src/TagCloudGenerator.java:356 | the queue gains the entry, at its comparator position, and stays in order |
| EntryQueues.EntryQueue.Remove | src/TagCloudGenerator.java:347 | `remove` hands out an entry that no entry of the queue comes before, and leaves the rest in order |
| FontScale.JavaDivRemainder | src/TagCloudGenerator.java:222-223 | the model of Java's `/` leaves a remainder smaller than the divisor, with the sign of the dividend |
| FontScale.CalculateFontSize | src/TagCloudGenerator.java:216-228 | the font is 11 when the lowest and highest counts are equal |
| FontScale.FontSizeFloor | src/TagCloudGenerator.java:222-223 | inside a proper range the font is 11 + floor(37 * (count - lowest) / (highest - lowest)) |
| FontScale.FontSizeRange | src/TagCloudGenerator.java:216-228 | a count between the lowest and the highest gets a font in [11, 48] |
| FontScale.FontSizeEnds | src/TagCloudGenerator.java:216-228 | the lowest count gets 11; in a proper range the highest gets 48 |
| FontScale.FontSizeMonotone | src/TagCloudGenerator.java:216-228 | a higher count never gets a smaller font |
| Selection.MapEntries | src/TagCloudGenerator.java:313-321 | the list holds every entry of the table exactly once and nothing else |
| Selection.CreateCountOrderedQueue | src/TagCloudGenerator.java:383-393 | the queue gains exactly the table's entries and stays in its comparator's order (MapPairValue in `main`) |
| Selection.Taken | src/TagCloudGenerator.java:345-358 | `num` entries are taken when there are at least that many (none for a negative `num`), none when there are fewer |
| Selection.PrintWord | src/TagCloudGenerator.java:188-201 | a printed line carries its entry, and a count between the bounds gets a font class in [11, 48] |
| Selection.TransferHead | src/TagCloudGenerator.java:347-356 | one loop step: the count queue's head leaves it and joins the alphabetical queue |
| Selection.MoveTop | src/TagCloudGenerator.java:342-363 | the first `num` entries leave the count queue for the alphabetical one; `highest` is the first count taken and `lowest` the last; both are 0 when nothing is taken |
| Selection.PrintAll | src/TagCloudGenerator.java:365-369 | every queued entry is printed, in the order the queue hands them out, with its font; the queue ends empty |
| Selection.CreateAlphOrderedQueue | src/TagCloudGenerator.java:338-371 | the printed entries are the first `num` of the count queue, rearranged into MapPairKey order, with fonts from the first and last count taken |
| Selection.CountsNonIncreasing | src/TagCloudGenerator.java:38-55 | a MapPairValue queue hands out non-increasing counts |
| Selection.SelectionIsTop | src/TagCloudGenerator.java:345-358 | each entry taken comes before each entry left behind |
| Selection.SelectionBounds | src/TagCloudGenerator.java:348-354 | every count taken lies between `lowest` and `highest` |
| Selection.KeysAscending | src/TagCloudGenerator.java:365-369 | entries from one table are printed with strictly ascending words |
| Selection.ShownFromTable | src/TagCloudGenerator.java:345-369 | every printed entry is an entry of the table, none twice |
| Selection.ShownIsTop | src/TagCloudGenerator.java:345-369 | every printed entry outranks every word of the table not printed |
| Selection.ShownBounds | src/TagCloudGenerator.java:345-369 | the printed counts lie between `lowest` and `highest`, and both are printed |
| TagCloud.PrintedTopEntries | src/TagCloudGenerator.java:345-369 | the entries printed are table entries in strictly ascending alphabetical order, each outranking every word left out |
| TagCloud.PrintedScaled | src/TagCloudGenerator.java:348-369 | the bounds are the smallest and the largest count printed (0 for an empty cloud), and every font is scaled between them |
| TagCloud.PrintedIsTagCloud | src/TagCloudGenerator.java:441-452 | draining the alphabetical queue filled from a MapPairValue listing of the table prints a tag cloud of the table |
| TagCloud.FillQueues | src/TagCloudGenerator.java:441-452 | for a non-empty table the two queues print a tag cloud of the table |
| TagCloud.GenerateTagCloud | src/TagCloudGenerator.java:438-452 | `main` throws exactly when the document has a word and fewer than one word is asked for; otherwise it prints a tag cloud of the document's table |
| TagCloud.GenerateTagCloudIntended | src/TagCloudGenerator.java:438-452 | without the capacity check every request prints a tag cloud of the document's table |
| TagCloud.DistinctKeys | src/TagCloudGenerator.java:365-369 | the words of a tag cloud are all different |
| TagCloud.KeysIncluded | src/TagCloudGenerator.java:338-371 | two tag clouds of one table with as many lines show the same words |
| TagCloud.SameShown | src/TagCloudGenerator.java:338-371 | two tag clouds of one table with as many lines show the same entries in the same order |
| TagCloud.SameBounds | src/TagCloudGenerator.java:348-354 | clouds showing the same entries have the same `lowest` and `highest` |
| TagCloud.TagCloudDetermined | src/TagCloudGenerator.java:438-452 | the printed page is determined by the table and the request: two tag clouds for them, with their bounds, are equal |
| TagCloud.EmptyRequest | src/TagCloudGenerator.java:345-369 | a request for fewer than one word prints nothing, and the bounds are 0 |
| TagCloud.OversizedRequest | src/TagCloudGenerator.java:345-363 | a request for more words than the table holds prints nothing, and the bounds are 0 |
| Example.ExampleWords | src/TagCloudGenerator.java:101-121 | the example document's words are the, cat, sat, on, the, mat, the, cat, ran |
| Example.ExampleFrequencies | src/TagCloudGenerator.java:90-134 | its table is the:3, cat:2, sat:1, on:1, mat:1, ran:1 |
| Example.ExampleCloud | src/TagCloudGenerator.java:338-371 | the only 3-word tag cloud of that table is cat (2, font 29), mat (1, font 11), the (3, font 48), between 1 and 3 |
| ExampleRun.ExampleTagCloud | src/TagCloudGenerator.java:438-452 | the same for the literal document "The cat sat on the mat. The cat ran." |
| ExampleRun.ThreeWordsPrinted | src/TagCloudGenerator.java:438-452 | `main` on that document asking for 3 words prints exactly that cloud |
| ExampleRun.ZeroWordsRejected | src/TagCloudGenerator.java:450-451 | `main` on that document asking for 0 words throws |
| ExampleRun.ZeroWordsIntended | src/TagCloudGenerator.java:345-369 | without the capacity check the same request prints an empty cloud |

## Left out

- **Console and files.** Reading the file name, the output name and `num`
  from the console (`main`, lines 404-413) is left out; `num` is a
  parameter, and `Integer.parseInt` failures are not modelled. Opening,
  reading and closing files and their `IOException`s are left out too. The
  document is a sequence of lines with their terminators already removed.
- **The HTML page.** `htmlFormat` (the page header) and the page footer
  are output formatting only. `printWord`'s write becomes a `Span` value:
  the entry with its font.
- **Standard error.** The `System.err` messages, including "number of words
  requested more than words in file", have no effect on the model.
- **Heap internals.** The binary heap inside `java.util.PriorityQueue` is
  replaced by a sequence kept in removal order. Two entries of a table never
  compare equal (the words differ), so the removal order is fully
  determined by the comparator and the sequence is exact.
- **Queue capacity.** The initial-capacity argument of the count queue is
  not modelled; `main` only creates that queue for a non-empty table, so
  its capacity is at least 1. The capacity of the alphabetical queue is
  modelled only through the check in `TagCloud.GenerateTagCloud`.
- TagCloud.GenerateTagCloud: makes the capacity check before filling the
  count queue rather than after. Filling that queue has no visible effect,
  so the outcome is the same.
- Selection.MapEntries: lists the entries in an order chosen by
  non-deterministic choice rather than `HashMap`'s iteration order. Every
  later result is proved independent of that order.
- Selection.MoveTop: `lowest` and `highest` are returned as out-parameters.
  In the source they are locals of `createAlphOrderedQueue`, and
  `createAlphOrderedQueue` is split into `MoveTop` (its loop) and `PrintAll`
  (its drain).
- Frequency.MapCreator: does not model 32-bit wrap-around of `count + 1`.
  A word would need more than 2^31 - 1 occurrences.
- FontScale.CalculateFontSize: does not model 32-bit wrap-around of
  `37 * (wordCount - minCount)` or of `maxCount - minCount`. That needs
  counts above about 58 million.
- Frequency.LowerCase: lower-cases ASCII letters only. Java's
  `toLowerCase` is locale-aware and Unicode-wide, and can even change a
  string's length. The model assumes the document's letters are ASCII.
- Ordering.CompareStrings: compares Dafny characters (Unicode scalar
  values). Java compares UTF-16 code units, and the two orders differ only
  for characters outside the Basic Multilingual Plane.

## Findings

| source | as written | input that shows it | evidently intended | confidence | as-written member | corrected member |
|---|---|---|---|---|---|---|
| src/TagCloudGenerator.java:450-451 | the alphabetical queue is created with initial capacity `num`, and `java.util.PriorityQueue` throws `IllegalArgumentException` for a capacity below 1 | any document with at least one word, with `num` = 0 (e.g. "The cat sat on the mat. The cat ran.") | an empty tag cloud, which `createAlphOrderedQueue` itself produces for `num` = 0 | high, not executed | TagCloud.GenerateTagCloud, ExampleRun.ZeroWordsRejected | TagCloud.GenerateTagCloudIntended, TagCloud.EmptyRequest, ExampleRun.ZeroWordsIntended |
