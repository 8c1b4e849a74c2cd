/** Bytes, options, powers of two and the fixed-width integer encodings that
    every store of the node uses for its keys and records. */
module Bytes {

  datatype Option<+T> = None | Some(value: T)

  type Byte = x: int | 0 <= x < 256

  /** A chunk key: the hash of the chunk, 32 bytes long in the node. */
  type Key = seq<Byte>

  function Pow2(n: nat): (r: nat)
    ensures r > 0
  {
    if n == 0 then 1 else 2 * Pow2(n - 1)
  }

  lemma {:induction false} Pow2Add(a: nat, b: nat)
    ensures Pow2(a + b) == Pow2(a) * Pow2(b)
  {
    if a > 0 {
      Pow2Add(a - 1, b);
      assert Pow2(a + b) == 2 * Pow2(a - 1 + b);
    }
  }

  function Pow256(n: nat): (r: nat)
    ensures r > 0
  {
    if n == 0 then 1 else 256 * Pow256(n - 1)
  }

  lemma MulMono(a: int, b: int, m: int)
    requires a <= b && 0 <= m
    ensures a * m <= b * m
  {
  }

  lemma Distribute(a: int, b: int, m: int)
    ensures (a + b) * m == a * m + b * m
  {
  }

  lemma DivModIdentity(x: int, m: int)
    requires m > 0
    ensures x == (x / m) * m + x % m
    ensures 0 <= x % m < m
  {
  }

  /** The value is determined by quotient and remainder. */
  lemma DivModUnique(x: int, m: int, q: int, r: int)
    requires m > 0 && 0 <= r < m && x == q * m + r
    ensures x / m == q && x % m == r
  {
    DivModIdentity(x, m);
    QuotientUnique(m, q, r, x / m, x % m);
  }

  lemma QuotientUnique(m: int, q: int, r: int, q': int, r': int)
    requires m > 0 && 0 <= r < m && 0 <= r' < m && q * m + r == q' * m + r'
    ensures q == q' && r == r'
  {
    if q < q' {
      MulMono(q + 1, q', m);
      Distribute(q, 1, m);
    } else if q' < q {
      MulMono(q' + 1, q, m);
      Distribute(q', 1, m);
    }
  }

  /** Byte-wise lexicographic order, as bytes.Compare and LevelDB use it. */
  predicate Less(a: seq<Byte>, b: seq<Byte>) {
    b != [] && (a == [] || a[0] < b[0] || (a[0] == b[0] && Less(a[1..], b[1..])))
  }

  lemma {:induction false} LessTrichotomy(a: seq<Byte>, b: seq<Byte>)
    ensures Less(a, b) || Less(b, a) || a == b
    ensures !(Less(a, b) && Less(b, a))
    ensures a == b ==> !Less(a, b)
  {
    if a != [] && b != [] {
      LessTrichotomy(a[1..], b[1..]);
      if a[0] == b[0] && a[1..] == b[1..] {
        assert a == [a[0]] + a[1..] == b;
      }
    }
  }

  lemma {:induction false} LessTransitive(a: seq<Byte>, b: seq<Byte>, c: seq<Byte>)
    requires Less(a, b) && Less(b, c)
    ensures Less(a, c)
  {
    if a != [] && a[0] == b[0] == c[0] {
      LessTransitive(a[1..], b[1..], c[1..]);
    }
  }

  lemma LessCons(x: Byte, a: seq<Byte>, y: Byte, b: seq<Byte>)
    ensures Less([x] + a, [y] + b) <==> x < y || (x == y && Less(a, b))
  {
    assert ([x] + a)[1..] == a && ([y] + b)[1..] == b;
  }

  lemma {:induction false} LessSharedPrefix(p: seq<Byte>, a: seq<Byte>, b: seq<Byte>)
    ensures Less(p + a, p + b) <==> Less(a, b)
  {
    if p == [] {
      assert p + a == a && p + b == b;
    } else {
      assert (p + a)[1..] == p[1..] + a && (p + b)[1..] == p[1..] + b;
      LessSharedPrefix(p[1..], a, b);
    }
  }

  /** binary.BigEndian with a given number of bytes. */
  function BigEndian(v: nat, n: nat): (s: seq<Byte>)
    requires v < Pow256(n)
    ensures |s| == n
    decreases n
  {
    if n == 0 then [] else
      TopByteBound(v, n);
      [v / Pow256(n - 1)] + BigEndian(v % Pow256(n - 1), n - 1)
  }

  lemma TopByteBound(v: nat, n: nat)
    requires n > 0 && v < Pow256(n)
    ensures 0 <= v / Pow256(n - 1) < 256
  {
    QuotientBound(v, Pow256(n - 1), 256);
  }

  lemma QuotientBound(v: nat, m: nat, k: nat)
    requires m > 0 && v < k * m
    ensures 0 <= v / m < k
  {
    DivModIdentity(v, m);
    if v / m >= k {
      MulMono(k, v / m, m);
    }
    if v / m < 0 {
      MulMono(v / m, -1, m);
    }
  }

  function FromBigEndian(s: seq<Byte>): (v: nat) {
    if s == [] then 0 else s[0] * Pow256(|s| - 1) + FromBigEndian(s[1..])
  }

  lemma {:induction false} BigEndianRoundTrip(v: nat, n: nat)
    requires v < Pow256(n)
    ensures FromBigEndian(BigEndian(v, n)) == v
  {
    if n > 0 {
      var m := Pow256(n - 1);
      TopByteBound(v, n);
      BigEndianRoundTrip(v % m, n - 1);
      assert BigEndian(v, n)[1..] == BigEndian(v % m, n - 1);
      DivModIdentity(v, m);
    }
  }

  /** Big-endian encoding turns numeric order into byte order: this is what lets
      an ordered byte store replay queue items by counter. */
  lemma {:induction false} BigEndianOrder(u: nat, v: nat, n: nat)
    requires u < Pow256(n) && v < Pow256(n)
    ensures Less(BigEndian(u, n), BigEndian(v, n)) <==> u < v
  {
    if n > 0 {
      var m := Pow256(n - 1);
      TopByteBound(u, n);
      TopByteBound(v, n);
      OrderByQuotient(u, v, m);
      var a, b := BigEndian(u % m, n - 1), BigEndian(v % m, n - 1);
      LessCons(u / m, a, v / m, b);
      BigEndianOrder(u % m, v % m, n - 1);
    }
  }

  lemma OrderByQuotient(u: nat, v: nat, m: nat)
    requires m > 0
    ensures u < v <==> u / m < v / m || (u / m == v / m && u % m < v % m)
  {
    DivModIdentity(u, m);
    DivModIdentity(v, m);
    if u / m < v / m {
      MulMono(u / m + 1, v / m, m);
      Distribute(u / m, 1, m);
    } else if v / m < u / m {
      MulMono(v / m + 1, u / m, m);
      Distribute(v / m, 1, m);
    }
  }

  /** binary.LittleEndian with a given number of bytes. */
  function LittleEndian(v: nat, n: nat): (s: seq<Byte>)
    ensures |s| == n
    decreases n
  {
    if n == 0 then [] else [v % 256] + LittleEndian(v / 256, n - 1)
  }

  function FromLittleEndian(s: seq<Byte>): (v: nat) {
    if s == [] then 0 else s[0] + 256 * FromLittleEndian(s[1..])
  }

  lemma {:induction false} LittleEndianRoundTrip(v: nat, n: nat)
    requires v < Pow256(n)
    ensures FromLittleEndian(LittleEndian(v, n)) == v
    decreases n
  {
    if n > 0 {
      LittleEndianRoundTrip(v / 256, n - 1);
      assert LittleEndian(v, n)[1..] == LittleEndian(v / 256, n - 1);
    }
  }

  /** Byte i of a little-endian integer is its digit of weight 256^i. */
  lemma {:induction false} LittleEndianByte(v: nat, n: nat, i: nat)
    requires i < n
    ensures LittleEndian(v, n)[i] == (v / Pow256(i)) % 256
    decreases i
  {
    if i == 0 {
      assert v / 1 == v;
    } else {
      LittleEndianByte(v / 256, n - 1, i - 1);
      DivDiv(v, 256, Pow256(i - 1));
      assert LittleEndian(v, n)[i] == LittleEndian(v / 256, n - 1)[i - 1];
    }
  }

  lemma DivDiv(x: nat, a: nat, b: nat)
    requires a > 0 && b > 0
    ensures a * b > 0 && (x / a) / b == x / (a * b)
  {
    MulMono(1, a, b);
    DivModIdentity(x, a);
    DivModIdentity(x / a, b);
    var q, s, r := (x / a) / b, (x / a) % b, x % a;
    Distribute(q * b, s, a);
    assert (q * b) * a == q * (a * b);
    assert x == q * (a * b) + (s * a + r);
    MulMono(s + 1, b, a);
    Distribute(s, 1, a);
    MulMono(0, s, a);
    assert b * a == a * b;
    DivModUnique(x, a * b, q, s * a + r);
  }
}
