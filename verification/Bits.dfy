/** Bytes, bits and the bitwise integer operations the codec uses. */
module Bits {

  type byte = b: int | 0 <= b < 256

  type bytes = seq<byte>

  // ---------- results of operations that may raise ----------

  datatype Option<+T> = None | Some(value: T) {
    predicate IsFailure() {
      None?
    }

    function PropagateFailure<U>(): Option<U>
      requires None?
    {
      None
    }

    function Extract(): T
      requires Some?
    {
      value
    }
  }

  // ---------- sequences ----------

  lemma TakeDrop<T>(a: seq<T>, b: seq<T>)
    ensures (a + b)[..|a|] == a && (a + b)[|a|..] == b
  {
  }

  lemma HeadTail<T>(s: seq<T>, i: nat)
    requires i < |s|
    ensures s[i..] == [s[i]] + s[i + 1..]
  {
  }

  lemma ConcatAssoc<T>(a: seq<T>, b: seq<T>, c: seq<T>)
    ensures (a + b) + c == a + (b + c)
  {
  }

  // ---------- powers of two ----------

  function Pow2(n: nat): (p: nat)
    ensures p > 0
  {
    if n == 0 then 1 else 2 * Pow2(n - 1)
  }

  lemma {:induction false} Pow2Add(a: nat, b: nat)
    ensures Pow2(a + b) == Pow2(a) * Pow2(b)
  {
    if a != 0 {
      Pow2Add(a - 1, b);
      assert a + b - 1 == (a - 1) + b;
    }
  }

  lemma Pow2Values()
    ensures Pow2(0) == 1 && Pow2(1) == 2 && Pow2(2) == 4 && Pow2(3) == 8 && Pow2(4) == 16
    ensures Pow2(5) == 32 && Pow2(6) == 64 && Pow2(7) == 128 && Pow2(8) == 256
  {
  }

  // ---------- numbers as bits, most significant bit first ----------

  function ToBits(v: nat, n: nat): (r: seq<bool>)
    ensures |r| == n
  {
    if n == 0 then [] else ToBits(v / 2, n - 1) + [v % 2 == 1]
  }

  function FromBits(b: seq<bool>): (v: nat)
    ensures v < Pow2(|b|)
  {
    if b == [] then 0
    else 2 * FromBits(b[..|b| - 1]) + if b[|b| - 1] then 1 else 0
  }

  lemma {:induction false} FromToBits(v: nat, n: nat)
    requires v < Pow2(n)
    ensures FromBits(ToBits(v, n)) == v
  {
    if n != 0 {
      FromToBits(v / 2, n - 1);
      var r := ToBits(v, n);
      assert r[..|r| - 1] == ToBits(v / 2, n - 1);
    }
  }

  lemma {:induction false} ToFromBits(b: seq<bool>)
    ensures ToBits(FromBits(b), |b|) == b
  {
    if b != [] {
      ToFromBits(b[..|b| - 1]);
      assert b == b[..|b| - 1] + [b[|b| - 1]];
    }
  }

  /** A run of bits splits into a high part and a low part. */
  lemma {:induction false} FromBitsConcat(a: seq<bool>, b: seq<bool>)
    ensures FromBits(a + b) == FromBits(a) * Pow2(|b|) + FromBits(b)
  {
    if b == [] {
      assert a + b == a;
    } else {
      var b' := b[..|b| - 1];
      FromBitsConcat(a, b');
      assert (a + b)[..|a + b| - 1] == a + b';
      assert FromBits(a) * Pow2(|b|) == 2 * (FromBits(a) * Pow2(|b'|)) by {
        MulDouble(FromBits(a), Pow2(|b'|));
      }
    }
  }

  lemma MulDouble(a: int, p: int)
    ensures a * (2 * p) == 2 * (a * p)
  {
  }

  /** The high part of a number's bits are the bits of its quotient, the low part those of its remainder. */
  lemma {:induction false} ToBitsSplit(v: nat, n: nat, k: nat)
    requires k <= n
    ensures ToBits(v, n)[..n - k] == ToBits(v / Pow2(k), n - k)
    ensures ToBits(v, n)[n - k..] == ToBits(v % Pow2(k), k)
  {
    if k == 0 {
      assert v / Pow2(0) == v;
    } else {
      ToBitsSplit(v / 2, n - 1, k - 1);
      var p := Pow2(k - 1);
      DivDiv(v, p);
      assert ToBits(v, n)[..n - k] == ToBits(v / 2, n - 1)[..n - k];
      assert ToBits(v, n)[n - k..] == ToBits(v / 2, n - 1)[n - k..] + [v % 2 == 1];
      assert (v % Pow2(k)) / 2 == (v / 2) % p && (v % Pow2(k)) % 2 == v % 2 by {
        DivMod2(v, p);
      }
    }
  }

  lemma DivDiv(v: nat, p: nat)
    requires p > 0
    ensures (v / 2) / p == v / (2 * p)
  {
    var q, r := v / (2 * p), v % (2 * p);
    assert v == 2 * p * q + r;
    assert v / 2 == p * q + r / 2;
    assert r / 2 < p;
    QuotientUnique(v / 2, p, q, r / 2);
  }

  lemma DivMod2(v: nat, p: nat)
    requires p > 0
    ensures (v % (2 * p)) / 2 == (v / 2) % p
    ensures (v % (2 * p)) % 2 == v % 2
  {
    var q, r := v / (2 * p), v % (2 * p);
    assert v == 2 * (p * q) + r;
    assert v / 2 == p * q + r / 2;
    assert r / 2 < p;
    QuotientUnique(v / 2, p, q, r / 2);
  }

  lemma QuotientUnique(v: int, d: nat, q: int, r: int)
    requires 0 <= r < d && v == d * q + r
    ensures v / d == q && v % d == r
  {
    var q', r' := v / d, v % d;
    if q > q' {
      MulAtLeast(d, q - q');
      MulMinus(d, q, q');
    } else if q < q' {
      MulAtLeast(d, q' - q);
      MulMinus(d, q', q);
    }
  }

  lemma MulAtLeast(d: nat, k: int)
    requires k >= 1
    ensures d * k >= d
  {
  }

  lemma MulMinus(d: int, a: int, b: int)
    ensures d * (a - b) == d * a - d * b
  {
  }

  // ---------- bytes as bits ----------

  function BytesBits(data: bytes): (r: seq<bool>)
    ensures |r| == 8 * |data|
  {
    if data == [] then [] else BytesBits(data[..|data| - 1]) + ToBits(data[|data| - 1], 8)
  }

  function BitsBytes(b: seq<bool>): (r: bytes)
    requires |b| % 8 == 0
    ensures |r| == |b| / 8
  {
    if b == [] then []
    else
      Pow2Values();
      BitsBytes(b[..|b| - 8]) + [FromBits(b[|b| - 8..])]
  }

  lemma {:induction false} BytesBitsConcat(a: bytes, b: bytes)
    ensures BytesBits(a + b) == BytesBits(a) + BytesBits(b)
  {
    if b == [] {
      assert a + b == a;
    } else {
      var b' := b[..|b| - 1];
      BytesBitsConcat(a, b');
      assert (a + b)[..|a + b| - 1] == a + b';
      assert BytesBits(a + b) == (BytesBits(a) + BytesBits(b')) + ToBits(b[|b| - 1], 8);
    }
  }

  lemma BytesBitsSingleton(b: byte)
    ensures BytesBits([b]) == ToBits(b, 8)
  {
    assert [b][..0] == [];
  }

  lemma BytesBitsCons(b: byte, rest: bytes)
    ensures BytesBits([b] + rest) == ToBits(b, 8) + BytesBits(rest)
  {
    BytesBitsConcat([b], rest);
    BytesBitsSingleton(b);
  }

  lemma {:induction false} BitsBytesBits(b: seq<bool>)
    requires |b| % 8 == 0
    ensures BytesBits(BitsBytes(b)) == b
  {
    if b != [] {
      var hi, lo := b[..|b| - 8], b[|b| - 8..];
      BitsBytesBits(hi);
      ToFromBits(lo);
      assert b == hi + lo;
      assert BitsBytes(b)[..|BitsBytes(b)| - 1] == BitsBytes(hi);
    }
  }

  lemma {:induction false} BytesBitsBytes(data: bytes)
    ensures BitsBytes(BytesBits(data)) == data
  {
    if data != [] {
      var hi, b := data[..|data| - 1], data[|data| - 1];
      BytesBitsBytes(hi);
      Pow2Values();
      FromToBits(b, 8);
      var r := BytesBits(data);
      assert r[..|r| - 8] == BytesBits(hi);
      assert r[|r| - 8..] == ToBits(b, 8);
    }
  }

  /** The bits from byte i on start with the bits of byte i. */
  lemma BytesBitsFrom(data: bytes, i: nat)
    requires i <= |data|
    ensures BytesBits(data)[8 * i..] == BytesBits(data[i..])
    ensures BytesBits(data)[..8 * i] == BytesBits(data[..i])
    ensures i < |data| ==> BytesBits(data[i..]) == ToBits(data[i], 8) + BytesBits(data[i + 1..])
  {
    var hi, lo := data[..i], data[i..];
    assert data == hi + lo;
    BytesBitsConcat(hi, lo);
    TakeDrop(BytesBits(hi), BytesBits(lo));
    if i < |data| {
      HeadTail(data, i);
      BytesBitsCons(data[i], data[i + 1..]);
    }
  }

  // ---------- bitwise or on naturals ----------

  function BitOr(a: nat, b: nat): (r: nat)
  {
    if a == 0 && b == 0 then 0
    else 2 * BitOr(a / 2, b / 2) + if a % 2 == 1 || b % 2 == 1 then 1 else 0
  }

  lemma BitOrZero(a: nat)
    ensures BitOr(a, 0) == a && BitOr(0, a) == a
  {
  }

  /** Or-ing into bits that are still zero is addition. */
  lemma {:induction false} BitOrDisjoint(a: nat, b: nat, k: nat)
    requires a % Pow2(k) == 0 && b < Pow2(k)
    ensures BitOr(a, b) == a + b
  {
    if k == 0 {
      BitOrZero(a);
    } else if a != 0 || b != 0 {
      var p := Pow2(k - 1);
      DivMod2(a, p);
      BitOrDisjoint(a / 2, b / 2, k - 1);
    }
  }
}
