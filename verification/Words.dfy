/** 32-bit words and the int8 lanes packed into them. */
module Words {

  type Int8 = x: int | -128 <= x < 128
  type Word = x: int | 0 <= x < 0x1_0000_0000

  function Pow2(k: nat): (p: nat)
    ensures p >= 1
  {
    if k == 0 then 1 else 2 * Pow2(k - 1)
  }

  /** Bitwise or on natural numbers. */
  function BitOr(a: nat, b: nat): nat {
    if a == 0 && b == 0 then 0
    else (if a % 2 == 1 || b % 2 == 1 then 1 else 0) + 2 * BitOr(a / 2, b / 2)
  }

  lemma {:induction false} OrZero(a: nat)
    ensures BitOr(a, 0) == a
  {
    if a > 0 {
      OrZero(a / 2);
    }
  }

  lemma {:induction false} OrCommutes(a: nat, b: nat)
    ensures BitOr(a, b) == BitOr(b, a)
  {
    if a > 0 || b > 0 {
      OrCommutes(a / 2, b / 2);
    }
  }

  /** Or-ing into bits that are still clear is addition. */
  lemma {:induction false} OrDisjoint(a: nat, b: nat, k: nat)
    requires a < Pow2(k)
    ensures BitOr(a, b * Pow2(k)) == a + b * Pow2(k)
  {
    if k == 0 {
      OrCommutes(0, b);
      OrZero(b);
    } else {
      var c := b * Pow2(k - 1);
      assert b * Pow2(k) == 2 * c;
      if a > 0 || c > 0 {
        assert (2 * c) / 2 == c && (2 * c) % 2 == 0;
        OrDisjoint(a / 2, b, k - 1);
      }
    }
  }

  /** The weight of lane i. */
  function Weight(i: nat): (w: nat)
    requires i <= 4
  {
    [1, 0x100, 0x1_0000, 0x100_0000, 0x1_0000_0000][i]
  }

  lemma WeightIsPow2(i: nat)
    requires i < 4
    ensures Weight(i) == Pow2(8 * i)
  {
    assert Pow2(4) == 16;
    assert Pow2(8) == 256;
    assert Pow2(12) == 0x1000;
    assert Pow2(16) == 0x1_0000;
    assert Pow2(20) == 0x10_0000;
    assert Pow2(24) == 0x100_0000;
  }

  /** Reading a byte as int8, and an int8 as the byte that stores it. */
  function Signed(b: nat): Int8
    requires b < 256
  {
    if b < 128 then b else b - 256
  }

  function Byte(x: Int8): (b: nat)
    ensures b < 256 && Signed(b) == x
  {
    if x < 0 then x + 256 else x
  }

  function Lane(w: Word, i: nat): (b: nat)
    requires i < 4
    ensures b < 256
  {
    (w / Weight(i)) % 256
  }

  /** Up to four int8 values packed into a word, the first in the lowest lane. */
  function Pack(v: seq<Int8>): nat
    requires |v| <= 4
  {
    if v == [] then 0
    else Pack(v[..|v| - 1]) + Byte(v[|v| - 1]) * Weight(|v| - 1)
  }

  /** A partly filled word leaves every higher lane clear. */
  lemma {:induction false} PackFits(v: seq<Int8>)
    requires |v| <= 4
    ensures Pack(v) < Weight(|v|) <= 0x1_0000_0000
  {
    if v != [] {
      PackFits(v[..|v| - 1]);
    }
  }

  /** One more value or-ed into the next lane. */
  lemma PackStep(v: seq<Int8>, x: Int8)
    requires |v| < 4
    ensures BitOr(Pack(v), Byte(x) * Weight(|v|)) == Pack(v + [x]) < 0x1_0000_0000
  {
    PackFits(v);
    PackFits(v + [x]);
    WeightIsPow2(|v|);
    OrDisjoint(Pack(v), Byte(x), 8 * |v|);
    assert (v + [x])[..|v|] == v;
  }

  /** Unpacking a packed word gives the values back, and zero where none was packed. */
  lemma LanesOfPack(v: seq<Int8>, i: nat)
    requires |v| <= 4 && i < 4
    ensures Pack(v) < 0x1_0000_0000
    ensures Signed(Lane(Pack(v), i)) == if i < |v| then v[i] else 0
  {
    PackFits(v);
    var b := seq(4, n requires 0 <= n < 4 => if n < |v| then Byte(v[n]) else 0);
    assert Pack(v) == b[0] + b[1] * 0x100 + b[2] * 0x1_0000 + b[3] * 0x100_0000 by {
      PackSum(v);
    }
    LaneOfSum(b[0], b[1], b[2], b[3], i);
  }

  lemma PackSum(v: seq<Int8>)
    requires |v| <= 4
    ensures Pack(v) == (if 0 < |v| then Byte(v[0]) else 0) + (if 1 < |v| then Byte(v[1]) else 0) * 0x100
                       + (if 2 < |v| then Byte(v[2]) else 0) * 0x1_0000 + (if 3 < |v| then Byte(v[3]) else 0) * 0x100_0000
  {
    if v != [] {
      PackSum(v[..|v| - 1]);
    }
  }

  lemma LaneOfSum(b0: nat, b1: nat, b2: nat, b3: nat, i: nat)
    requires b0 < 256 && b1 < 256 && b2 < 256 && b3 < 256 && i < 4
    ensures b0 + b1 * 0x100 + b2 * 0x1_0000 + b3 * 0x100_0000 < 0x1_0000_0000
    ensures Lane(b0 + b1 * 0x100 + b2 * 0x1_0000 + b3 * 0x100_0000, i) == [b0, b1, b2, b3][i]
  {
    match i
    case 0 => Middle(0, b0, b1 + b2 * 0x100 + b3 * 0x1_0000, 1);
    case 1 => Middle(b0, b1, b2 + b3 * 0x100, 0x100);
    case 2 => Middle(b0 + b1 * 0x100, b2, b3, 0x1_0000);
    case 3 => Middle(b0 + b1 * 0x100 + b2 * 0x1_0000, b3, 0, 0x100_0000);
  }

  lemma Middle(low: nat, b: nat, high: nat, m: nat)
    requires low < m && b < 256
    ensures (low + (b + high * 256) * m) / m % 256 == b
  {
    Split(low, b + high * 256, m);
    Split(b, high, 256);
  }

  lemma Split(low: nat, high: nat, m: nat)
    requires low < m
    ensures (low + high * m) / m == high && (low + high * m) % m == low
  {
    var n := low + high * m;
    assert n == (n / m) * m + n % m;
    QuotientIsUnique(m, n / m, n % m, high, low);
  }

  lemma QuotientIsUnique(m: nat, q: int, r: nat, q': int, r': nat)
    requires r < m && r' < m && q * m + r == q' * m + r'
    ensures q == q' && r == r'
  {
    AtLeastOnce(q - q', m);
    AtLeastOnce(q' - q, m);
    assert (q - q') * m == q * m - q' * m;
    assert (q' - q) * m == q' * m - q * m;
  }

  lemma AtLeastOnce(d: int, m: nat)
    ensures d >= 1 ==> d * m >= m
  {}
}
