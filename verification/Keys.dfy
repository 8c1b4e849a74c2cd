/** Key.bits: reading bit fields out of a chunk key. */
module Keys {
  import opened Bytes

  const KEY_SIZE: nat := 32

  /** x >> n */
  function Shr(x: nat, n: nat): nat
    decreases n
  {
    if n == 0 then x else Shr(x / 2, n - 1)
  }

  /** x << n */
  function Shl(x: nat, n: nat): nat {
    if n == 0 then x else 2 * Shl(x, n - 1)
  }

  /** x & ((1 << n) - 1) */
  function Low(x: nat, n: nat): nat
    decreases n
  {
    if n == 0 then 0 else x % 2 + 2 * Low(x / 2, n - 1)
  }

  lemma {:induction false} ShrStep(x: nat, n: nat)
    ensures Shr(x, n + 1) == Shr(x, n) / 2
    decreases n
  {
    if n > 0 {
      ShrStep(x / 2, n - 1);
    }
  }

  lemma {:induction false} ShrBound(x: nat, n: nat, m: nat)
    requires x < Pow2(n + m)
    ensures Shr(x, n) < Pow2(m)
    decreases n
  {
    if n > 0 {
      ShrBound(x / 2, n - 1, m);
    }
  }

  lemma {:induction false} LowOfSmall(x: nat, n: nat)
    requires x < Pow2(n)
    ensures Low(x, n) == x
    decreases n
  {
    if n > 0 {
      LowOfSmall(x / 2, n - 1);
    }
  }

  lemma {:induction false} ShlSum(x: nat, y: nat, n: nat)
    ensures Shl(x + y, n) == Shl(x, n) + Shl(y, n)
  {
    if n > 0 {
      ShlSum(x, y, n - 1);
    }
  }

  lemma Pow2Values()
    ensures Pow2(2) == 4 && Pow2(8) == 256 && Pow2(14) == 16384
  {
    assert Pow2(4) == 16;
    assert Pow2(6) == 64;
    assert Pow2(8) == 256;
    assert Pow2(10) == 1024;
    assert Pow2(12) == 4096;
  }

  /** Bit n of the key, least significant bit of each byte first; 0 past the end. */
  function KeyBit(h: Key, n: nat): (b: nat)
    ensures b < 2
  {
    if n / 8 < |h| then Shr(h[n / 8], n % 8) % 2 else 0
  }

  /** The j-bit number whose bit t is key bit i + t. */
  function BitField(h: Key, i: nat, j: nat): nat
    decreases j
  {
    if j == 0 then 0 else KeyBit(h, i) + 2 * BitField(h, i + 1, j - 1)
  }

  lemma {:induction false} BitFieldBound(h: Key, i: nat, j: nat)
    ensures BitField(h, i, j) < Pow2(j)
    decreases j
  {
    if j > 0 {
      BitFieldBound(h, i + 1, j - 1);
    }
  }

  lemma {:induction false} BitFieldConcat(h: Key, i: nat, a: nat, b: nat)
    ensures BitField(h, i, a + b) == BitField(h, i, a) + Shl(BitField(h, i + a, b), a)
    decreases a
  {
    if a > 0 {
      BitFieldConcat(h, i + 1, a - 1, b);
    }
  }

  lemma {:induction false} BitFieldPastEnd(h: Key, i: nat, j: nat)
    requires i / 8 >= |h|
    ensures BitField(h, i, j) == 0
    decreases j
  {
    if j > 0 {
      BitFieldPastEnd(h, i + 1, j - 1);
    }
  }

  lemma KeyBitAt(h: Key, ii: nat, s: nat)
    requires ii < |h| && s < 8
    ensures KeyBit(h, 8 * ii + s) == Shr(h[ii], s) % 2
  {
    assert (8 * ii + s) / 8 == ii && (8 * ii + s) % 8 == s;
  }

  /** Shifting and masking one byte gives the bit field inside it. */
  lemma {:induction false} ShiftMask(h: Key, ii: nat, s: nat, j: nat)
    requires ii < |h| && s + j <= 8
    ensures Low(Shr(h[ii], s), j) == BitField(h, 8 * ii + s, j)
    decreases j
  {
    if j > 0 {
      KeyBitAt(h, ii, s);
      ShrStep(h[ii], s);
      ShiftMask(h, ii, s + 1, j - 1);
      assert 8 * ii + s + 1 == 8 * ii + (s + 1);
    }
  }

  /** The first, partial byte of a field that crosses a byte boundary. */
  lemma FirstPart(h: Key, ii: nat, s: nat)
    requires ii < |h| && s < 8
    ensures Shr(h[ii], s) == BitField(h, 8 * ii + s, 8 - s)
  {
    Pow2Values();
    ShrBound(h[ii], s, 8 - s);
    LowOfSmall(Shr(h[ii], s), 8 - s);
    ShiftMask(h, ii, s, 8 - s);
  }

  /** Appending the low bits of the next byte. */
  lemma NextPart(h: Key, i: nat, done: nat, ii: nat, more: nat)
    requires i + done == 8 * ii && ii < |h| && more <= 8
    ensures BitField(h, i, done + more) == BitField(h, i, done) + Shl(Low(h[ii], more), done)
    ensures more == 8 ==> Low(h[ii], more) == h[ii]
  {
    BitFieldConcat(h, i, done, more);
    ShiftMask(h, ii, 0, more);
    if more == 8 {
      WholeByte(h, ii, more);
    }
  }

  lemma WholeByte(h: Key, ii: nat, eight: nat)
    requires ii < |h| && eight == 8
    ensures Low(h[ii], eight) == h[ii] == BitField(h, 8 * ii, eight)
  {
    hide BitField, Low, Pow2;
    Pow2Values();
    LowOfSmall(h[ii], eight);
    ShiftMask(h, ii, 0, eight);
  }

  /** Key.bits. The requires is exactly what keeps the Go slice indexing in range. */
  method Bits(h: Key, i: nat, j: nat) returns (res: nat)
    requires i / 8 >= |h| || i + j <= 8 * |h|
    ensures res == BitField(h, i, j)
  {
    hide Shr, Shl, Low, BitField;
    var ii, jj := i / 8, i % 8;
    if ii >= |h| {
      BitFieldPastEnd(h, i, j);
      return 0;
    }
    if jj + j <= 8 {
      ShiftMask(h, ii, jj, j);
      return Low(Shr(h[ii], jj), j);
    }
    res := Shr(h[ii], jj);
    FirstPart(h, ii, jj);
    jj := 8 - jj;
    var left := j - jj;
    while left != 0
      invariant 0 <= left && left + jj == j
      invariant i + jj == 8 * (ii + 1)
      invariant res == BitField(h, i, jj)
      decreases left
    {
      ii := ii + 1;
      var more := if left < 8 then left else 8;
      NextPart(h, i, jj, ii, more);
      if left < 8 {
        return res + Shl(Low(h[ii], left), jj);
      }
      res := res + Shl(h[ii], jj);
      jj := jj + 8;
      left := left - 8;
    }
  }

  // ----- the digits that address the cache tree -----

  const ROOT_BITS: nat := 14
  const NODE_BITS: nat := 2
  const ROOT_WIDTH: nat := 16384
  const NODE_WIDTH: nat := 4
  /** Number of levels after which a 32-byte key is used up. */
  const KEY_LEVELS: nat := 122

  function LevelBits(level: nat): nat {
    if level == 0 then ROOT_BITS else NODE_BITS
  }

  /** The bit position the descent has reached when it stands at a level. */
  function LevelPos(level: nat): nat {
    if level == 0 then 0 else ROOT_BITS + NODE_BITS * (level - 1)
  }

  function Digit(k: Key, level: nat): (d: nat)
    ensures d < if level == 0 then ROOT_WIDTH else NODE_WIDTH
  {
    Pow2Values();
    BitFieldBound(k, LevelPos(level), LevelBits(level));
    BitField(k, LevelPos(level), LevelBits(level))
  }

  lemma {:induction false} FieldDeterminesBits(a: Key, b: Key, i: nat, j: nat, t: nat)
    requires t < j && BitField(a, i, j) == BitField(b, i, j)
    ensures KeyBit(a, i + t) == KeyBit(b, i + t)
    decreases j
  {
    if t > 0 {
      FieldDeterminesBits(a, b, i + 1, j - 1, t - 1);
    }
  }

  lemma {:induction false} BitsDetermineField(a: Key, b: Key, i: nat, j: nat)
    requires forall t: nat :: i <= t < i + j ==> KeyBit(a, t) == KeyBit(b, t)
    ensures BitField(a, i, j) == BitField(b, i, j)
    decreases j
  {
    if j > 0 {
      BitsDetermineField(a, b, i + 1, j - 1);
    }
  }

  lemma SameDigitsSameBit(a: Key, b: Key, n: nat)
    requires n < 8 * KEY_SIZE
    requires forall level: nat :: level < KEY_LEVELS ==> Digit(a, level) == Digit(b, level)
    ensures KeyBit(a, n) == KeyBit(b, n)
  {
    var level := if n < ROOT_BITS then 0 else 1 + (n - ROOT_BITS) / NODE_BITS;
    assert Digit(a, level) == Digit(b, level);
    FieldDeterminesBits(a, b, LevelPos(level), LevelBits(level), n - LevelPos(level));
  }

  /** Distinct 32-byte keys differ in one of the first 122 digits, so the split
      loop of MemStore.Put ends. */
  lemma DistinctKeysDiffer(a: Key, b: Key)
    requires |a| == |b| == KEY_SIZE
    requires forall level: nat :: level < KEY_LEVELS ==> Digit(a, level) == Digit(b, level)
    ensures a == b
  {
    forall i | 0 <= i < KEY_SIZE
      ensures a[i] == b[i]
    {
      forall n: nat | 8 * i <= n < 8 * i + 8
        ensures KeyBit(a, n) == KeyBit(b, n)
      {
        SameDigitsSameBit(a, b, n);
      }
      var n := |a[..8]|;
      BitsDetermineField(a, b, 8 * i, n);
      WholeByte(a, i, n);
      WholeByte(b, i, n);
    }
  }
}
