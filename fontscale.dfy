/**
 * calculateFontSize: the font class of a word in the tag cloud, scaled
 * linearly from 11 (the lowest count shown) to 48 (the highest), with
 * Java's truncating integer division.
 */
module FontScale {

  const MinFont: int := 11
  const MaxFont: int := 48

  function Abs(x: int): nat {
    if x < 0 then -x else x
  }

  /** Java's `/` on int: the quotient truncated toward zero. */
  function JavaDiv(a: int, b: int): int
    requires b != 0
  {
    if (a < 0) == (b < 0) then Abs(a) / Abs(b) else -(Abs(a) / Abs(b))
  }

  /** The defining property of Java's integer division (section 15.17.2 of
      the Java Language Specification): the remainder left by the quotient
      is smaller than the divisor in magnitude and takes the sign of the
      dividend. */
  lemma JavaDivRemainder(a: int, b: int)
    requires b != 0
    ensures Abs(a - JavaDiv(a, b) * b) < Abs(b)
    ensures a - JavaDiv(a, b) * b == 0 || (a - JavaDiv(a, b) * b < 0 <==> a < 0)
  {
    var n: int, d: int := Abs(a), Abs(b);
    var q0: int, r0: int := n / d, n % d;
    assert n == d * q0 + r0 && 0 <= r0 < d;
    var q := JavaDiv(a, b);
    if (a < 0) == (b < 0) {
      assert q == q0;
      assert q * b == (if b < 0 then -(d * q0) else d * q0);
    } else {
      assert q == -q0;
      assert q * b == (if b < 0 then d * q0 else -(d * q0));
    }
  }

  /** calculateFontSize: 11 when every shown word has the same count,
      otherwise 11 plus 37 times the word's share of the count range. */
  function CalculateFontSize(minCount: int, maxCount: int, wordCount: int): (font: int)
    ensures minCount == maxCount ==> font == MinFont
  {
    if minCount == maxCount then MinFont
    else JavaDiv((MaxFont - MinFont) * (wordCount - minCount), maxCount - minCount) + MinFont
  }

  /** For a count inside a proper range Java's truncation is the floor. */
  lemma FontSizeFloor(minCount: int, maxCount: int, wordCount: int)
    requires minCount < maxCount && minCount <= wordCount
    ensures CalculateFontSize(minCount, maxCount, wordCount)
      == MinFont + ((MaxFont - MinFont) * (wordCount - minCount)) / (maxCount - minCount)
  {
  }

  /** Scaling a product back by its factor. */
  lemma MulDivCancel(k: int, d: int)
    requires 0 < d
    ensures (k * d) / d == k
  {
    var q, r := (k * d) / d, (k * d) % d;
    assert k * d == d * q + r && 0 <= r < d;
    assert d * (k - q) == r;
    if k - q > 0 {
      MulAtLeast(k - q, d);
    } else if k - q < 0 {
      MulAtLeast(q - k, d);
    }
  }

  lemma MulAtLeast(m: int, d: int)
    requires 0 < m && 0 < d
    ensures d * m >= d
  {
  }

  /** Division by a positive number is monotone. */
  lemma DivMonotone(x: int, y: int, d: int)
    requires 0 <= x <= y && 0 < d
    ensures x / d <= y / d
  {
    var qx, qy := x / d, y / d;
    assert x == d * qx + x % d && 0 <= x % d < d;
    assert y == d * qy + y % d && 0 <= y % d < d;
    if qx > qy {
      MulAtLeast(qx - qy, d);
    }
  }

  /** Counts between the lowest and the highest get a font in [11, 48]. */
  lemma FontSizeRange(minCount: int, maxCount: int, wordCount: int)
    requires minCount <= wordCount <= maxCount
    ensures MinFont <= CalculateFontSize(minCount, maxCount, wordCount) <= MaxFont
  {
    if minCount < maxCount {
      var d := maxCount - minCount;
      var x := (MaxFont - MinFont) * (wordCount - minCount);
      DivMonotone(x, (MaxFont - MinFont) * d, d);
      MulDivCancel(MaxFont - MinFont, d);
    }
  }

  /** The lowest count gets 11 and, in a proper range, the highest gets 48. */
  lemma FontSizeEnds(minCount: int, maxCount: int)
    ensures CalculateFontSize(minCount, maxCount, minCount) == MinFont
    ensures minCount < maxCount ==> CalculateFontSize(minCount, maxCount, maxCount) == MaxFont
  {
    if minCount < maxCount {
      MulDivCancel(MaxFont - MinFont, maxCount - minCount);
    }
  }

  /** A word never gets a smaller font than a word with a lower count. */
  lemma FontSizeMonotone(minCount: int, maxCount: int, w1: int, w2: int)
    requires minCount <= w1 <= w2 <= maxCount
    ensures CalculateFontSize(minCount, maxCount, w1) <= CalculateFontSize(minCount, maxCount, w2)
  {
    if minCount < maxCount {
      DivMonotone((MaxFont - MinFont) * (w1 - minCount), (MaxFont - MinFont) * (w2 - minCount), maxCount - minCount);
    }
  }
}
