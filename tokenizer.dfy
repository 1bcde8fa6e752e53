/**
 * The tokenizer of the tag cloud generator: a line of text is cut into
 * maximal runs of separator characters and maximal runs of word characters.
 */
module Tokenizer {

  /** The fixed separator set, written exactly as the generator spells it
      (duplicate characters are harmless: membership is all that is tested). */
  const SeparatorChars: string := " [] {} \" \t , ; -- ._`~\n\0!:&#*+=<>()/\\?    '"

  /** The distinct characters of `SeparatorChars`, one comparison each; no
      ASCII letter or digit is among them. */
  predicate IsSeparator(c: char)
    ensures ('A' <= c <= 'Z' || 'a' <= c <= 'z' || '0' <= c <= '9') ==> !IsSeparator(c)
  {
    || c == ' ' || c == '[' || c == ']' || c == '{' || c == '}' || c == '"' || c == '\t'
    || c == ',' || c == ';' || c == '-' || c == '.' || c == '_' || c == '`' || c == '~'
    || c == '\n' || c == '\0' || c == '!' || c == ':' || c == '&' || c == '#' || c == '*'
    || c == '+' || c == '=' || c == '<' || c == '>' || c == '(' || c == ')' || c == '/'
    || c == '\\' || c == '?' || c == '\''
  }

  /** `IsSeparator(c)` is the generator's test `separator.indexOf(c) >= 0`. */
  lemma IsSeparatorIsMembership(c: char)
    ensures IsSeparator(c) <==> c in SeparatorChars
  {
  }

  /** Every character of `s` is a separator exactly when `sep` holds. */
  predicate AllInClass(s: string, sep: bool) {
    forall i :: 0 <= i < |s| ==> IsSeparator(s[i]) == sep
  }

  /** The contract of nextWordOrSeparator: `token` is the non-empty slice of
      `text` at `position`, all of one class (the class of `text[position]`),
      and it cannot be extended, because it reaches the end of the text or
      the next character is of the other class. */
  predicate IsMaximalRun(text: string, position: nat, token: string)
    requires position < |text|
  {
    && 0 < |token|
    && position + |token| <= |text|
    && token == text[position..position + |token|]
    && AllInClass(token, IsSeparator(text[position]))
    && (position + |token| == |text| || IsSeparator(text[position + |token|]) != IsSeparator(text[position]))
  }

  /** The first index at or after `i` whose character is not of class `sep`
      (or the end of the text). */
  function RunEnd(text: string, i: nat, sep: bool): (e: nat)
    requires i <= |text|
    ensures i <= e <= |text|
    ensures forall j :: i <= j < e ==> IsSeparator(text[j]) == sep
    ensures e == |text| || IsSeparator(text[e]) != sep
    decreases |text| - i
  {
    if i == |text| || IsSeparator(text[i]) != sep then i else RunEnd(text, i + 1, sep)
  }

  /** RunEnd is determined by its contract: the end of the run is the first
      index of the other class. */
  lemma {:induction false} RunEndIs(text: string, i: nat, sep: bool, e: nat)
    requires i <= e <= |text|
    requires forall j :: i <= j < e ==> IsSeparator(text[j]) == sep
    requires e == |text| || IsSeparator(text[e]) != sep
    ensures RunEnd(text, i, sep) == e
    decreases e - i
  {
    if i < e {
      RunEndIs(text, i + 1, sep, e);
    }
  }

  /** The word or separator run that starts at `position`. */
  function TokenAt(text: string, position: nat): (token: string)
    requires position < |text|
    ensures position < position + |token| <= |text|
  {
    text[position..RunEnd(text, position, IsSeparator(text[position]))]
  }

  /** TokenAt meets the contract of nextWordOrSeparator. */
  lemma TokenAtIsMaximalRun(text: string, position: nat)
    requires position < |text|
    ensures IsMaximalRun(text, position, TokenAt(text, position))
  {
  }

  /** The contract of nextWordOrSeparator determines its result. */
  lemma MaximalRunUnique(text: string, position: nat, t1: string, t2: string)
    requires position < |text|
    requires IsMaximalRun(text, position, t1) && IsMaximalRun(text, position, t2)
    ensures t1 == t2
  {
    var sep := IsSeparator(text[position]);
    forall k | position <= k < position + |t1|
      ensures IsSeparator(text[k]) == sep
    {
      assert t1[k - position] == text[k];
    }
    forall k | position <= k < position + |t2|
      ensures IsSeparator(text[k]) == sep
    {
      assert t2[k - position] == text[k];
    }
  }

  /** nextWordOrSeparator: collects characters of the class of
      `text[position]` until the class changes or the text ends. */
  method NextWordOrSeparator(text: string, position: nat) returns (next: string)
    requires position < |text|
    ensures IsMaximalRun(text, position, next)
    ensures next == TokenAt(text, position)
  {
    next := [];
    var i := position;
    if IsSeparator(text[i]) {
      while i < |text| && IsSeparator(text[i])
        invariant position <= i <= |text|
        invariant next == text[position..i]
        invariant forall j :: position <= j < i ==> IsSeparator(text[j])
      {
        next := next + [text[i]];
        i := i + 1;
      }
    } else {
      while i < |text| && !IsSeparator(text[i])
        invariant position <= i <= |text|
        invariant next == text[position..i]
        invariant forall j :: position <= j < i ==> !IsSeparator(text[j])
      {
        next := next + [text[i]];
        i := i + 1;
      }
    }
    TokenAtIsMaximalRun(text, position);
    MaximalRunUnique(text, position, next, TokenAt(text, position));
  }

  /** The tokens met by scanning `line` from `pos` to its end, advancing by
      each token's length. */
  function TokensFrom(line: string, pos: nat): seq<string>
    requires pos <= |line|
    decreases |line| - pos
  {
    if pos == |line| then []
    else
      var t := TokenAt(line, pos);
      TokenAtIsMaximalRun(line, pos);
      [t] + TokensFrom(line, pos + |t|)
  }

  function Tokens(line: string): seq<string> {
    TokensFrom(line, 0)
  }

  function Concat(ss: seq<string>): string {
    if ss == [] then [] else ss[0] + Concat(ss[1..])
  }

  /** Scanning from `pos` reconstructs the rest of the line: the tokens
      concatenate back to `line[pos..]`, with no gap and no overlap. */
  lemma {:induction false} TokensConcat(line: string, pos: nat)
    requires pos <= |line|
    ensures Concat(TokensFrom(line, pos)) == line[pos..]
    decreases |line| - pos
  {
    if pos < |line| {
      var t := TokenAt(line, pos);
      assert t == line[pos..pos + |t|];
      TokensConcat(line, pos + |t|);
      assert line[pos..] == t + line[pos + |t|..];
    }
  }

  /** Every token met while scanning is non-empty and of one class. */
  lemma {:induction false} TokensSingleClass(line: string, pos: nat)
    requires pos <= |line|
    ensures forall t :: t in TokensFrom(line, pos) ==> 0 < |t| && AllInClass(t, IsSeparator(t[0]))
    decreases |line| - pos
  {
    if pos < |line| {
      var t := TokenAt(line, pos);
      TokenAtIsMaximalRun(line, pos);
      assert t[0] == line[pos];
      var rest := TokensFrom(line, pos + |t|);
      TokensSingleClass(line, pos + |t|);
      assert TokensFrom(line, pos) == [t] + rest;
      forall u | u in TokensFrom(line, pos)
        ensures 0 < |u| && AllInClass(u, IsSeparator(u[0]))
      {
        if u != t {
          assert u in rest;
        }
      }
    }
  }

  /** Non-empty tokens whose neighbours are always of the other class. */
  predicate Alternating(ts: seq<string>) {
    && (forall i :: 0 <= i < |ts| ==> 0 < |ts[i]|)
    && (forall i :: 0 <= i < |ts| - 1 ==> IsSeparator(ts[i][0]) != IsSeparator(ts[i + 1][0]))
  }

  /** Neighbouring tokens alternate class: a word is always followed by a
      separator run and vice versa. */
  lemma {:induction false} TokensAlternate(line: string, pos: nat)
    requires pos <= |line|
    ensures Alternating(TokensFrom(line, pos))
    ensures TokensFrom(line, pos) != [] ==> TokensFrom(line, pos)[0][0] == line[pos]
    decreases |line| - pos
  {
    if pos < |line| {
      var t := TokenAt(line, pos);
      TokenAtIsMaximalRun(line, pos);
      assert t[0] == line[pos];
      var rest := TokensFrom(line, pos + |t|);
      TokensAlternate(line, pos + |t|);
      var ts := TokensFrom(line, pos);
      assert ts == [t] + rest;
      forall i | 0 <= i < |ts| - 1
        ensures IsSeparator(ts[i][0]) != IsSeparator(ts[i + 1][0])
      {
        if i == 0 {
          assert ts[1] == rest[0];
        } else {
          assert ts[i] == rest[i - 1] && ts[i + 1] == rest[i];
        }
      }
    }
  }

  /** Since every token is of one class, testing its first character (as the
      aggregator does) tells whether it holds any separator at all. */
  lemma FirstCharDecides(line: string, pos: nat, t: string)
    requires pos <= |line|
    requires t in TokensFrom(line, pos)
    ensures 0 < |t|
    ensures IsSeparator(t[0]) <==> (forall i :: 0 <= i < |t| ==> IsSeparator(t[i]))
    ensures !IsSeparator(t[0]) <==> (forall i :: 0 <= i < |t| ==> !IsSeparator(t[i]))
  {
    TokensSingleClass(line, pos);
  }
}
