/**
 * The frequency aggregator: every line is cut into tokens, separator runs
 * are dropped, words are lower-cased and counted in a map.
 */
module Frequency {
  import opened Tokenizer

  /** ASCII lower-casing of one character. */
  function ToLower(c: char): char {
    if 'A' <= c <= 'Z' then (c as int + 32) as char else c
  }

  predicate IsLowerCase(s: string) {
    forall i :: 0 <= i < |s| ==> !('A' <= s[i] <= 'Z')
  }

  /** `s.toLowerCase()`, restricted to ASCII: same length, every upper-case
      letter replaced by its lower-case partner, nothing else touched. */
  function LowerCase(s: string): (r: string)
    ensures |r| == |s|
  {
    if s == [] then [] else [ToLower(s[0])] + LowerCase(s[1..])
  }

  lemma {:induction false} LowerCaseSpec(s: string)
    ensures IsLowerCase(LowerCase(s))
    ensures forall i :: 0 <= i < |s| ==> LowerCase(s)[i] == ToLower(s[i])
  {
    if s != [] {
      LowerCaseSpec(s[1..]);
      assert LowerCase(s) == [ToLower(s[0])] + LowerCase(s[1..]);
    }
  }

  /** Lower-casing never moves a character into or out of the separator set. */
  lemma ToLowerKeepsClass(c: char)
    ensures IsSeparator(ToLower(c)) == IsSeparator(c)
  {
  }

  /** A key of the frequency table: non-empty, lower-case, no separator. */
  predicate IsWord(w: string) {
    && 0 < |w|
    && IsLowerCase(w)
    && forall i :: 0 <= i < |w| ==> !IsSeparator(w[i])
  }

  /** The words of a token sequence: the lower-cased tokens that do not
      start with a separator, in order. */
  function WordsOf(tokens: seq<string>): seq<string> {
    if tokens == [] then []
    else
      (if 0 < |tokens[0]| && !IsSeparator(tokens[0][0]) then [LowerCase(tokens[0])] else [])
      + WordsOf(tokens[1..])
  }

  /** The words of a whole document, line after line. */
  function DocumentWords(lines: seq<string>): seq<string> {
    if lines == [] then [] else WordsOf(Tokens(lines[0])) + DocumentWords(lines[1..])
  }

  /** One word counted: put 1 for a new word, otherwise remove the word and
      put it back with its old count plus 1. */
  function Increment(m: map<string, int>, w: string): (r: map<string, int>)
    ensures r.Keys == m.Keys + {w}
    ensures r[w] == (if w in m then m[w] else 0) + 1
    ensures forall k :: k in m && k != w ==> r[k] == m[k]
  {
    if w !in m then m[w := 1] else (m - {w})[w := m[w] + 1]
  }

  /** The counts of `m` after counting every word of `ws` in turn. */
  function AddAll(m: map<string, int>, ws: seq<string>): map<string, int>
    decreases |ws|
  {
    if ws == [] then m else AddAll(Increment(m, ws[0]), ws[1..])
  }

  /** The frequency table of a document. */
  function Frequencies(lines: seq<string>): map<string, int> {
    AddAll(map[], DocumentWords(lines))
  }

  /** The number of tokens of `tokens` that are words (their first character
      is no separator) and whose lower-cased form is `w`. */
  function TokenCount(tokens: seq<string>, w: string): nat {
    if tokens == [] then 0
    else
      (if 0 < |tokens[0]| && !IsSeparator(tokens[0][0]) && LowerCase(tokens[0]) == w then 1 else 0)
      + TokenCount(tokens[1..], w)
  }

  /** The number of such tokens over all lines of the document. */
  function DocumentCount(lines: seq<string>, w: string): nat {
    if lines == [] then 0 else TokenCount(Tokens(lines[0]), w) + DocumentCount(lines[1..], w)
  }

  /** The number of times `w` occurs in `ws`. */
  function Occurrences(ws: seq<string>, w: string): nat {
    if ws == [] then 0 else (if ws[0] == w then 1 else 0) + Occurrences(ws[1..], w)
  }

  lemma {:induction false} OccurrencesAppend(xs: seq<string>, ys: seq<string>, w: string)
    ensures Occurrences(xs + ys, w) == Occurrences(xs, w) + Occurrences(ys, w)
  {
    if xs != [] {
      assert (xs + ys)[1..] == xs[1..] + ys;
      OccurrencesAppend(xs[1..], ys, w);
    } else {
      assert xs + ys == ys;
    }
  }

  /** Counting the words of a token sequence is counting its word tokens. */
  lemma {:induction false} WordsOfCount(tokens: seq<string>, w: string)
    ensures Occurrences(WordsOf(tokens), w) == TokenCount(tokens, w)
  {
    if tokens != [] {
      var head := if 0 < |tokens[0]| && !IsSeparator(tokens[0][0]) then [LowerCase(tokens[0])] else [];
      OccurrencesAppend(head, WordsOf(tokens[1..]), w);
      WordsOfCount(tokens[1..], w);
    }
  }

  /** The word list of a document counts exactly the document's word tokens. */
  lemma {:induction false} DocumentWordsCount(lines: seq<string>, w: string)
    ensures Occurrences(DocumentWords(lines), w) == DocumentCount(lines, w)
  {
    if lines != [] {
      OccurrencesAppend(WordsOf(Tokens(lines[0])), DocumentWords(lines[1..]), w);
      WordsOfCount(Tokens(lines[0]), w);
      DocumentWordsCount(lines[1..], w);
    }
  }

  /** Folding `ws` into `m` adds, for every word, its number of occurrences,
      and introduces exactly the words of `ws`. */
  lemma {:induction false} AddAllCounts(m: map<string, int>, ws: seq<string>, w: string)
    ensures w in AddAll(m, ws) <==> w in m || Occurrences(ws, w) > 0
    ensures w in AddAll(m, ws) ==> AddAll(m, ws)[w] == (if w in m then m[w] else 0) + Occurrences(ws, w)
    decreases |ws|
  {
    if ws != [] {
      AddAllCounts(Increment(m, ws[0]), ws[1..], w);
    }
  }

  /** Every word of a token sequence from a line is a valid table key. */
  lemma {:induction false} WordsOfAreWords(line: string, pos: nat)
    requires pos <= |line|
    ensures forall w :: w in WordsOf(TokensFrom(line, pos)) ==> IsWord(w)
    decreases |line| - pos
  {
    if pos < |line| {
      var t := TokenAt(line, pos);
      TokenAtIsMaximalRun(line, pos);
      LowerCaseSpec(t);
      var rest := TokensFrom(line, pos + |t|);
      WordsOfAreWords(line, pos + |t|);
      assert TokensFrom(line, pos) == [t] + rest;
      assert ([t] + rest)[1..] == rest;
      if !IsSeparator(t[0]) {
        var lw := LowerCase(t);
        forall i | 0 <= i < |lw|
          ensures !IsSeparator(lw[i])
        {
          ToLowerKeepsClass(t[i]);
        }
      }
    }
  }

  /** Every word of a document is a valid table key. */
  lemma {:induction false} DocumentWordsAreWords(lines: seq<string>)
    ensures forall w :: w in DocumentWords(lines) ==> IsWord(w)
  {
    if lines != [] {
      WordsOfAreWords(lines[0], 0);
      DocumentWordsAreWords(lines[1..]);
    }
  }

  /** The frequency table holds exactly the words of the document, each a
      valid key, each with a count of at least 1 equal to the number of word
      tokens, over all lines, whose lower-cased form it is. */
  lemma FrequenciesSpec(lines: seq<string>, w: string)
    ensures w in Frequencies(lines) <==> DocumentCount(lines, w) > 0
    ensures w in Frequencies(lines) ==> IsWord(w) && Frequencies(lines)[w] == DocumentCount(lines, w) >= 1
  {
    AddAllCounts(map[], DocumentWords(lines), w);
    DocumentWordsCount(lines, w);
    DocumentWordsAreWords(lines);
    if Occurrences(DocumentWords(lines), w) > 0 {
      OccurrenceIsMember(DocumentWords(lines), w);
    }
  }

  lemma {:induction false} OccurrenceIsMember(ws: seq<string>, w: string)
    requires Occurrences(ws, w) > 0
    ensures w in ws
  {
    if ws[0] != w {
      OccurrenceIsMember(ws[1..], w);
    }
  }

  /** A separator token leaves the word list, hence the table, unchanged. */
  lemma SeparatorTokenIgnored(t: string, tokens: seq<string>)
    requires 0 < |t| && IsSeparator(t[0])
    ensures WordsOf([t] + tokens) == WordsOf(tokens)
  {
    assert ([t] + tokens)[1..] == tokens;
  }

  /** The count update for one token: a token that (lower-cased) starts
      with a separator leaves the counts alone, a word is incremented. */
  function CountToken(m: map<string, int>, token: string): map<string, int>
    requires 0 < |token|
  {
    var word := LowerCase(token);
    if !IsSeparator(word[0]) then Increment(m, word) else m
  }

  /** The counts after scanning `line` from `pos` to its end. */
  function ScanLine(m: map<string, int>, line: string, pos: nat): map<string, int>
    requires pos <= |line|
    decreases |line| - pos
  {
    if pos == |line| then m
    else
      var t := TokenAt(line, pos);
      ScanLine(CountToken(m, t), line, pos + |t|)
  }

  /** Scanning from `pos` is counting the token at `pos` and scanning on
      from its end. */
  lemma ScanLineStep(m: map<string, int>, line: string, pos: nat, token: string, m': map<string, int>, next: nat)
    requires pos < |line|
    requires token == TokenAt(line, pos) && m' == CountToken(m, token) && next == pos + |token|
    ensures next <= |line|
    ensures ScanLine(m, line, pos) == ScanLine(m', line, next)
  {
    assert pos < next <= |line|;
  }

  /** The counts after scanning every line of `lines` in turn. */
  function ScanLines(m: map<string, int>, lines: seq<string>): map<string, int>
    decreases |lines|
  {
    if lines == [] then m else ScanLines(ScanLine(m, lines[0], 0), lines[1..])
  }

  lemma {:induction false} AddAllAppend(m: map<string, int>, xs: seq<string>, ys: seq<string>)
    ensures AddAll(m, xs + ys) == AddAll(AddAll(m, xs), ys)
    decreases |xs|
  {
    if xs == [] {
      assert xs + ys == ys;
    } else {
      assert (xs + ys)[0] == xs[0] && (xs + ys)[1..] == xs[1..] + ys;
      AddAllAppend(Increment(m, xs[0]), xs[1..], ys);
    }
  }

  /** Scanning from `pos` meets the token at `pos` and then the tokens from
      its end. */
  lemma TokensFromStep(line: string, pos: nat, t: string, next: nat)
    requires pos < |line|
    requires t == TokenAt(line, pos) && next == pos + |t|
    ensures next <= |line|
    ensures TokensFrom(line, pos) == [t] + TokensFrom(line, next)
  {
  }

  /** The words of a token sequence headed by `t`. */
  lemma WordsOfCons(t: string, rest: seq<string>)
    requires 0 < |t|
    ensures WordsOf([t] + rest) == (if !IsSeparator(t[0]) then [LowerCase(t)] else []) + WordsOf(rest)
  {
    assert ([t] + rest)[1..] == rest;
  }

  /** Counting one token and then a word list is counting the token's word
      (if any) together with the list. */
  lemma CountTokenThenAddAll(m: map<string, int>, t: string, ws: seq<string>)
    requires 0 < |t|
    ensures AddAll(CountToken(m, t), ws) == AddAll(m, (if !IsSeparator(t[0]) then [LowerCase(t)] else []) + ws)
  {
    LowerCaseSpec(t);
    ToLowerKeepsClass(t[0]);
    if !IsSeparator(t[0]) {
      var xs := [LowerCase(t)] + ws;
      assert xs[0] == LowerCase(t) && xs[1..] == ws;
    } else {
      assert [] + ws == ws;
    }
  }

  /** Scanning a line token by token counts exactly the line's words. */
  lemma {:induction false} ScanLineCountsWords(m: map<string, int>, line: string, pos: nat)
    requires pos <= |line|
    ensures ScanLine(m, line, pos) == AddAll(m, WordsOf(TokensFrom(line, pos)))
    decreases |line| - pos
  {
    if pos < |line| {
      var t := TokenAt(line, pos);
      var next := pos + |t|;
      var m' := CountToken(m, t);
      ScanLineStep(m, line, pos, t, m', next);
      TokensFromStep(line, pos, t, next);
      var rest := TokensFrom(line, next);
      ScanLineCountsWords(m', line, next);
      WordsOfCons(t, rest);
      CountTokenThenAddAll(m, t, WordsOf(rest));
    }
  }

  /** Scanning the lines in turn counts exactly the document's words. */
  lemma {:induction false} ScanLinesCountsWords(m: map<string, int>, lines: seq<string>)
    ensures ScanLines(m, lines) == AddAll(m, DocumentWords(lines))
    decreases |lines|
  {
    if lines != [] {
      ScanLineCountsWords(m, lines[0], 0);
      ScanLinesCountsWords(ScanLine(m, lines[0], 0), lines[1..]);
      AddAllAppend(m, WordsOf(Tokens(lines[0])), DocumentWords(lines[1..]));
    }
  }

  /** mapCreator: reads the document line by line and token by token and
      counts every word, lower-cased, in `wordsMap`. */
  method MapCreator(lines: seq<string>) returns (wordsMap: map<string, int>)
    ensures wordsMap == Frequencies(lines)
  {
    wordsMap := map[];
    var pos := 0;
    var n := 0;
    while n < |lines|
      invariant 0 <= n <= |lines|
      invariant pos == 0
      invariant ScanLines(wordsMap, lines[n..]) == ScanLines(map[], lines)
    {
      var line := lines[n];
      assert lines[n..][1..] == lines[n + 1..];
      ghost var lineCounts := ScanLine(wordsMap, line, 0);
      while pos < |line|
        invariant pos <= |line|
        invariant ScanLine(wordsMap, line, pos) == lineCounts
      {
        var word := NextWordOrSeparator(line, pos);
        ghost var token := word;
        word := LowerCase(word);
        ghost var before := wordsMap;
        if !IsSeparator(word[0]) {
          // containsKey ? remove and put count + 1 : put 1
          wordsMap := Increment(wordsMap, word);
        }
        ghost var start := pos;
        pos := pos + |word|;
        ScanLineStep(before, line, start, token, wordsMap, pos);
      }
      pos := 0;
      n := n + 1;
    }
    ScanLinesCountsWords(map[], lines);
  }
}
