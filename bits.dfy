/** Binary strings of '0' and '1' and the natural numbers they denote: the
    pieces of Python's `bin`, `int(s, 2)`, `str.zfill`, `str.count` and
    `str.find` that the board representation is built from. Strings are read
    most significant digit first, as `bin` writes them. */
module Bits {

  /** 2 to the power k. */
  function Pow2(k: nat): (r: nat)
    ensures r >= 1
  {
    if k == 0 then 1 else 2 * Pow2(k - 1)
  }

  /** Every character of s is a binary digit. */
  predicate IsBits(s: string) {
    forall i :: 0 <= i < |s| ==> s[i] == '0' || s[i] == '1'
  }

  /** The digit worth 1 in a bit position holding c. */
  function Bit(c: char): nat {
    if c == '1' then 1 else 0
  }

  /** int(s, 2): the number a binary string denotes. */
  function Value(s: string): nat
    decreases |s|
  {
    if s == [] then 0 else 2 * Value(s[..|s| - 1]) + Bit(s[|s| - 1])
  }

  /** bin(x)[2:]: the binary digits of x without leading zeros ("0" for zero). */
  function ToBinary(x: nat): (r: string)
    ensures IsBits(r) && |r| >= 1
    ensures Value(r) == x
    ensures r[0] == '1' <==> x > 0
    ensures x == 0 ==> r == "0"
    decreases x
  {
    if x < 2 then [if x == 0 then '0' else '1']
    else
      var r := ToBinary(x / 2) + [if x % 2 == 0 then '0' else '1'];
      assert r[..|r| - 1] == ToBinary(x / 2);
      r
  }

  /** k zero digits. */
  function Zeros(k: nat): (r: string)
    ensures |r| == k
  {
    seq(k, _ => '0')
  }

  /** s.zfill(w): s left-padded with '0' to width w. */
  function ZFill(s: string, w: nat): string {
    if |s| >= w then s else Zeros(w - |s|) + s
  }

  /** str.count(c) */
  function Count(s: string, c: char): nat
    decreases |s|
  {
    if s == [] then 0 else Count(s[..|s| - 1], c) + (if s[|s| - 1] == c then 1 else 0)
  }

  /** str.find(c): the index of the first c in s, or -1 if there is none. */
  function Find(s: string, c: char): (r: int)
    ensures r == -1 <==> c !in s
    ensures r >= 0 ==> r < |s| && s[r] == c && c !in s[..r]
    decreases |s|
  {
    if s == [] then -1
    else if s[0] == c then 0
    else
      var k := Find(s[1..], c);
      if k < 0 then -1
      else
        assert s[..k + 1] == [s[0]] + s[1..][..k];
        k + 1
  }

  /** The number of one bits of x (bin(x).count('1')). */
  function PopCount(x: nat): nat
    decreases x
  {
    if x == 0 then 0 else PopCount(x / 2) + x % 2
  }

  /** Bit i of x, counting from the least significant bit as bit 0. */
  predicate TestBit(x: nat, i: nat)
    decreases i
  {
    if i == 0 then x % 2 == 1 else TestBit(x / 2, i - 1)
  }

  lemma {:induction false} ValueOfZeros(k: nat)
    ensures Value(Zeros(k)) == 0
  {
    if k > 0 {
      assert Zeros(k)[..k - 1] == Zeros(k - 1);
      ValueOfZeros(k - 1);
    }
  }

  /** Leading zeros do not change the value of a binary string. */
  lemma {:induction false} ValueIgnoresLeadingZeros(k: nat, s: string)
    ensures Value(Zeros(k) + s) == Value(s)
    decreases |s|
  {
    if s == [] {
      assert Zeros(k) + s == Zeros(k);
      ValueOfZeros(k);
    } else {
      var z := Zeros(k) + s;
      assert z[..|z| - 1] == Zeros(k) + s[..|s| - 1];
      ValueIgnoresLeadingZeros(k, s[..|s| - 1]);
    }
  }

  /** A binary string of length L denotes a number below 2^L. */
  lemma {:induction false} ValueBound(s: string)
    ensures Value(s) < Pow2(|s|)
    decreases |s|
  {
    if s != [] {
      ValueBound(s[..|s| - 1]);
    }
  }

  /** Two binary strings of one length that denote the same number are equal. */
  lemma {:induction false} ValueInjective(s: string, t: string)
    requires IsBits(s) && IsBits(t) && |s| == |t|
    requires Value(s) == Value(t)
    ensures s == t
    decreases |s|
  {
    if s != [] {
      var k := |s| - 1;
      assert Bit(s[k]) == Bit(t[k]);
      assert s[k] == t[k];
      ValueInjective(s[..k], t[..k]);
      assert s == s[..k] + [s[k]] && t == t[..k] + [t[k]];
    }
  }

  /** bin writes a number below 2^L with at most L digits. */
  lemma {:induction false} ToBinaryLength(x: nat, w: nat)
    requires w >= 1 && x < Pow2(w)
    ensures |ToBinary(x)| <= w
    decreases x
  {
    if x >= 2 {
      ToBinaryLength(x / 2, w - 1);
    }
  }

  /** zfill keeps a binary string binary and keeps its value; it pads to
      exactly the width when the string is not longer. */
  lemma ZFillFacts(b: string, w: nat)
    requires IsBits(b)
    ensures var z := ZFill(b, w);
      IsBits(z) && Value(z) == Value(b) && (|b| <= w ==> |z| == w) && (|b| >= w ==> z == b)
  {
    if |b| < w {
      var z := Zeros(w - |b|) + b;
      ValueIgnoresLeadingZeros(w - |b|, b);
      assert forall i :: 0 <= i < |z| ==> z[i] == (if i < w - |b| then '0' else b[i - (w - |b|)]);
    }
  }

  /** Padding a string no wider than w puts exactly w - |b| zeros in front
      of it. */
  lemma ZFillPads(b: string, w: nat)
    requires |b| <= w
    ensures ZFill(b, w) == Zeros(w - |b|) + b
  {
    if |b| == w {
      assert Zeros(0) + b == b;
    }
  }

  /** Zero-padding bin(v) to the width of a binary string that denotes v gives
      back that string: the bit string is determined by its value and width. */
  lemma Canonical(s: string)
    requires IsBits(s) && |s| >= 1
    ensures ZFill(ToBinary(Value(s)), |s|) == s
  {
    var b := ToBinary(Value(s));
    ValueBound(s);
    ToBinaryLength(Value(s), |s|);
    ZFillFacts(b, |s|);
    ValueInjective(ZFill(b, |s|), s);
  }

  /** Writing one digit at string index k moves the value by the weight
      2^(|s|-1-k) of that position. */
  lemma {:induction false} ValueUpdate(s: string, k: nat, c: char)
    requires k < |s|
    ensures Value(s[k := c]) + (if s[k] == '1' then Pow2(|s| - 1 - k) else 0)
         == Value(s) + (if c == '1' then Pow2(|s| - 1 - k) else 0)
    decreases |s|
  {
    var u := s[k := c];
    var last := |s| - 1;
    if k == last {
      assert u[..last] == s[..last];
    } else {
      assert u[..last] == s[..last][k := c];
      ValueUpdate(s[..last], k, c);
      assert Pow2(|s| - 1 - k) == 2 * Pow2(last - 1 - k);
    }
  }

  /** Setting an empty digit adds its weight. */
  lemma ValueSet(s: string, k: nat)
    requires k < |s| && s[k] == '0'
    ensures Value(s[k := '1']) == Value(s) + Pow2(|s| - 1 - k)
  {
    ValueUpdate(s, k, '1');
  }

  /** Clearing a one digit removes its weight. */
  lemma ValueClear(s: string, k: nat)
    requires k < |s| && s[k] == '1'
    ensures Value(s[k := '0']) + Pow2(|s| - 1 - k) == Value(s)
  {
    ValueUpdate(s, k, '0');
  }

  /** Clearing two '1' digits and setting a '0' digit moves the value by
      the weights 2^x, 2^y, 2^z of the three positions (x, y, z counted from
      the least significant digit). */
  lemma ThreeDigits(b: string, j: nat, g: nat, p: nat, x: nat, y: nat, z: nat)
    requires j < |b| && g < |b| && p < |b| && j != g && j != p && g != p
    requires x == |b| - 1 - j && y == |b| - 1 - g && z == |b| - 1 - p
    requires b[j] == '1' && b[g] == '1' && b[p] == '0'
    ensures Value(b[j := '0'][g := '0'][p := '1']) + Pow2(x) + Pow2(y) == Value(b) + Pow2(z)
  {
    ClearTwo(b, j, g);
    var b2 := b[j := '0'][g := '0'];
    assert |b2| == |b| && b2[p] == '0';
    ValueSet(b2, p);
  }

  /** Emptying two '1' digits and filling one '0' digit of a binary string
      keeps it binary and removes one '1'. */
  lemma ThreeDigitsCount(b: string, j: nat, g: nat, p: nat)
    requires IsBits(b) && j < |b| && g < |b| && p < |b| && j != g && j != p && g != p
    requires b[j] == '1' && b[g] == '1' && b[p] == '0'
    ensures IsBits(b[j := '0'][g := '0'][p := '1'])
    ensures Count(b[j := '0'][g := '0'][p := '1'], '1') + 1 == Count(b, '1')
  {
    var b1 := b[j := '0'];
    var b2 := b1[g := '0'];
    assert b1[g] == '1' && b2[p] == '0';
    CountUpdate(b, j, '0', '1');
    CountUpdate(b1, g, '0', '1');
    CountUpdate(b2, p, '1', '1');
  }

  /** Clearing two '1' digits removes both weights. */
  lemma ClearTwo(b: string, j: nat, g: nat)
    requires j < |b| && g < |b| && j != g
    requires b[j] == '1' && b[g] == '1'
    ensures Value(b[j := '0'][g := '0']) + Pow2(|b| - 1 - j) + Pow2(|b| - 1 - g) == Value(b)
  {
    var b1 := b[j := '0'];
    assert |b1| == |b| && b1[g] == '1';
    ValueClear(b, j);
    ValueClear(b1, g);
  }

  /** Writing one character at index k changes the count of c by at most the
      character removed and the one written. */
  lemma {:induction false} CountUpdate(s: string, k: nat, d: char, c: char)
    requires k < |s|
    ensures Count(s[k := d], c) + (if s[k] == c then 1 else 0) == Count(s, c) + (if d == c then 1 else 0)
    decreases |s|
  {
    var last := |s| - 1;
    var u := s[k := d];
    if k == last {
      assert u[..last] == s[..last];
    } else {
      assert u[..last] == s[..last][k := d];
      CountUpdate(s[..last], k, d, c);
    }
  }

  /** A string with no c has count zero; otherwise the count is positive. */
  lemma {:induction false} CountZero(s: string, c: char)
    ensures Count(s, c) == 0 <==> c !in s
    decreases |s|
  {
    if s != [] {
      CountZero(s[..|s| - 1], c);
      assert s == s[..|s| - 1] + [s[|s| - 1]];
    }
  }

  /** Leading zeros add no one digits. */
  lemma {:induction false} CountOnesIgnoresZeros(k: nat, s: string)
    ensures Count(Zeros(k) + s, '1') == Count(s, '1')
    decreases |s|
  {
    if s == [] {
      assert Zeros(k) + s == Zeros(k);
      CountZero(Zeros(k), '1');
    } else {
      var z := Zeros(k) + s;
      assert z[..|z| - 1] == Zeros(k) + s[..|s| - 1];
      CountOnesIgnoresZeros(k, s[..|s| - 1]);
    }
  }

  /** Counting '1' characters of a binary string counts the one bits of the
      number it denotes. */
  lemma {:induction false} CountIsPopCount(s: string)
    requires IsBits(s)
    ensures Count(s, '1') == PopCount(Value(s))
    decreases |s|
  {
    if s != [] {
      var p := s[..|s| - 1];
      CountIsPopCount(p);
      var v := Value(s);
      if v != 0 {
        assert v / 2 == Value(p) && v % 2 == Bit(s[|s| - 1]);
      }
    }
  }

  /** The character at string index |s|-1-i is bit i of the value: the
      reversed digit list indexes bits by weight. */
  lemma {:induction false} DigitIsBit(s: string, i: nat)
    requires IsBits(s) && i < |s|
    ensures s[|s| - 1 - i] == '1' <==> TestBit(Value(s), i)
    decreases |s|
  {
    var p := s[..|s| - 1];
    assert Value(s) / 2 == Value(p) && Value(s) % 2 == Bit(s[|s| - 1]);
    if i > 0 {
      DigitIsBit(p, i - 1);
      assert s[|s| - 1 - i] == p[|p| - 1 - (i - 1)];
    }
  }
}
