/** The bit-level writer and reader (tornado_http2/encoding.py). */
module Encoding {
  import opened Bits
  import opened HpackInt
  import opened Huffman
  import opened HuffmanTree

  // ---------- filling up a byte ----------

  lemma {:induction false} ToBitsAppend(q: nat, o: nat, v: nat, n: nat)
    requires v < Pow2(n)
    ensures ToBits(q * Pow2(n) + v, o + n) == ToBits(q, o) + ToBits(v, n)
  {
    if n == 0 {
      assert q * Pow2(0) == q;
    } else {
      var p := Pow2(n - 1);
      MulDouble(q, p);
      ToBitsAppend(q, o, v / 2, n - 1);
      ToBitsHalf(q * p, v, o + n);
      ConcatAssoc(ToBits(q, o), ToBits(v / 2, n - 1), [v % 2 == 1]);
    }
  }

  lemma ToBitsHalf(h: nat, v: nat, n: nat)
    requires n > 0
    ensures ToBits(2 * h + v, n) == ToBits(h + v / 2, n - 1) + [v % 2 == 1]
  {
  }

  /**
   * Or-ing an n-bit number into a byte whose bits from position o on are zero appends the
   * number's bits to the first o bits.
   */
  lemma OrInto(x: byte, o: nat, v: nat, n: nat)
    requires o + n <= 8 && x % Pow2(8 - o) == 0 && v < Pow2(n)
    ensures var x' := BitOr(x, v * Pow2(8 - o - n));
            x' < 256 && x' % Pow2(8 - o - n) == 0 && ToBits(x', 8)[..o + n] == ToBits(x, 8)[..o] + ToBits(v, n)
  {
    hide ToBits, Pow2, BitOr;
    var m := 8 - o - n;
    var q, p := x / Pow2(8 - o), Pow2(m);
    var x', q' := x + v * p, q * Pow2(n) + v;
    Pow2Values();
    Pow2Add(n, m);
    Pow2Add(o, 8 - o);
    assert x == q * Pow2(8 - o);
    Widen(q, v, Pow2(n), p);
    BitOrDisjoint(x, v * p, 8 - o);
    QuotientUnique(x', p, q', 0);
    Bounded(q, Pow2(o), v * p, Pow2(8 - o));
    ToBitsSplit(x', 8, m);
    ToBitsSplit(x, 8, 8 - o);
    ToBitsAppend(q, o, v, n);
    assert 8 - m == o + n && 8 - (8 - o) == o;
  }

  lemma Widen(q: nat, v: nat, pn: nat, p: nat)
    requires v < pn && p > 0
    ensures q * (pn * p) + v * p == p * (q * pn + v)
    ensures v * p < pn * p
  {
    assert q * (pn * p) == p * (q * pn);
  }

  lemma Bounded(q: nat, po: nat, r: nat, p: nat)
    requires r < p && q * p < po * p
    ensures q * p + r < po * p
  {
    assert q < po;
    assert (q + 1) * p == q * p + p;
    assert (q + 1) * p <= po * p;
  }

  lemma BitAt(x: nat, k: nat)
    requires k < 8
    ensures ToBits(x, 8)[k] == ((x / Pow2(7 - k)) % 2 == 1)
  {
    ToBitsSplit(x, 8, 7 - k);
    assert ToBits(x, 8)[..8 - (7 - k)][k] == ToBits(x, 8)[k];
  }

  lemma LowBits(x: nat, k: nat)
    requires k <= 8
    ensures FromBits(ToBits(x, 8)[k..]) == x % Pow2(8 - k)
  {
    ToBitsSplit(x, 8, 8 - k);
    FromToBits(x % Pow2(8 - k), 8 - k);
  }

  // ---------- the writer ----------

  /** The bits written when `bitOffset` bits of the last byte are in use. */
  ghost function Written(data: bytes, bitOffset: nat): (r: seq<bool>)
    requires bitOffset <= 8 && (data == [] ==> bitOffset == 8)
    ensures |r| == 8 * |data| - (8 - bitOffset) && |r| % 8 == bitOffset % 8
  {
    BytesBits(data)[..8 * |data| - (8 - bitOffset)]
  }

  lemma WrittenLast(hi: bytes, x: byte, o: nat)
    requires o <= 8
    ensures Written(hi + [x], o) == BytesBits(hi) + ToBits(x, 8)[..o]
  {
    BytesBitsConcat(hi, [x]);
    BytesBitsSingleton(x);
  }

  lemma NewByte(data: bytes)
    ensures Written(data + [0], 0) == Written(data, 8)
  {
    WrittenLast(data, 0, 0);
  }

  lemma TailStep(data: bytes, out: bytes, j: nat)
    requires j >= 128
    ensures (out + [j % 128 + 128]) + Tail(j / 128) == out + Tail(j)
    ensures (data + out) + [j % 128 + 128] == data + (out + [j % 128 + 128])
  {
  }

  lemma WrittenWhole(data: bytes, more: bytes)
    ensures Written(data + more, 8) == Written(data, 8) + BytesBits(more)
  {
    BytesBitsConcat(data, more);
  }

  /** Or-ing an n-bit number into the unused bits of the last byte writes its bits. */
  lemma FillByte(data: bytes, o: nat, v: nat, n: nat)
    requires data != [] && o + n <= 8 && data[|data| - 1] % Pow2(8 - o) == 0 && v < Pow2(n)
    ensures var last := BitOr(data[|data| - 1], v * Pow2(8 - o - n));
            last < 256 && last % Pow2(8 - o - n) == 0
            && Written(data[|data| - 1 := last], o + n) == Written(data, o) + ToBits(v, n)
  {
    hide ToBits, Pow2, BitOr, BytesBits, Written;
    var hi, last := data[..|data| - 1], data[|data| - 1];
    OrInto(last, o, v, n);
    var last' := BitOr(last, v * Pow2(8 - o - n));
    assert data == hi + [last] && data[|data| - 1 := last'] == hi + [last'];
    WrittenLast(hi, last, o);
    WrittenLast(hi, last', o + n);
    ConcatAssoc(BytesBits(hi), ToBits(last, 8)[..o], ToBits(v, n));
  }

  class BitEncoder {
    var data: bytes
    var bitOffset: nat

    /** Bits of the last byte that are not in use yet are zero. */
    ghost predicate Valid()
      reads this
    {
      && 1 <= bitOffset <= 8
      && (data == [] ==> bitOffset == 8)
      && (data != [] ==> data[|data| - 1] % Pow2(8 - bitOffset) == 0)
    }

    ghost function Bits(): (r: seq<bool>)
      requires Valid()
      reads this
      ensures Free() == 8 - |r| % 8
    {
      Written(data, bitOffset)
    }

    /** Bits that fit before the next byte boundary. */
    function Free(): nat
      requires 1 <= bitOffset <= 8
      reads this
    {
      if bitOffset == 8 then 8 else 8 - bitOffset
    }

    constructor ()
      ensures Valid() && Bits() == []
    {
      data, bitOffset := [], 8;
    }

    /** The encoded bytes; when the last one is in use completely they are exactly the bits written. */
    method Data() returns (d: bytes)
      requires Valid()
      ensures Bits() <= BytesBits(d) && |BytesBits(d)| < |Bits()| + 8
      ensures |Bits()| % 8 == 0 ==> BytesBits(d) == Bits()
    {
      d := data;
    }

    method WriteBit(b: bool)
      requires Valid()
      modifies this
      ensures Valid() && Bits() == old(Bits()) + [b]
    {
      hide Pow2, ToBits, BytesBits, BitOr;
      Pow2Values();
      if bitOffset > 7 {
        NewByte(data);
        data, bitOffset := data + [0], 0;
      }
      var v := if b then 1 else 0;
      assert ToBits(v, 1) == [b] by { OneBit(b); }
      FillByte(data, bitOffset, v, 1);
      data := data[|data| - 1 := BitOr(data[|data| - 1], v * Pow2(7 - bitOffset))];
      bitOffset := bitOffset + 1;
    }

    method WriteBits(bits: seq<bool>)
      requires Valid()
      modifies this
      ensures Valid() && Bits() == old(Bits()) + bits
    {
      var i := 0;
      while i < |bits|
        invariant 0 <= i <= |bits|
        invariant Valid() && Bits() == old(Bits()) + bits[..i]
      {
        WriteBit(bits[i]);
        i := i + 1;
      }
      assert bits[..i] == bits;
    }

    method WriteHpackInt(i: nat)
      requires Valid()
      modifies this
      ensures Valid() && bitOffset == 8
      ensures Bits() == old(Bits()) + IntBits(old(Free()), i)
    {
      hide Pow2, ToBits, BytesBits, BitOr, Tail;
      assert Pow2(0) == 1 by { Pow2Values(); }
      var o := bitOffset;
      if o == 8 {
        NewByte(data);
        data, o := data + [0], 0;
      }
      var n := 8 - o;
      var max := Pow2(n) - 1;
      if i < max {
        FillRest(i, o);
      } else {
        FillRest(max, o);
        WriteTail(i - max);
      }
    }

    /** Ors a number into what is left of the last byte, of which `o` bits are in use. */
    method FillRest(v: nat, o: nat)
      requires data != [] && o < 8 && data[|data| - 1] % Pow2(8 - o) == 0 && v < Pow2(8 - o)
      modifies this
      ensures Valid() && bitOffset == 8
      ensures Bits() == old(Written(data, o)) + ToBits(v, 8 - o)
    {
      assert v * Pow2(0) == v;
      FillByte(data, o, v, 8 - o);
      data := data[|data| - 1 := BitOr(data[|data| - 1], v)];
      bitOffset := 8;
    }

    /** The loop of `write_hpack_int`: seven bits a byte, with the top bit set on all but the last. */
    method WriteTail(i: nat)
      requires Valid() && bitOffset == 8
      modifies this
      ensures Valid() && bitOffset == 8 && Bits() == old(Bits()) + BytesBits(Tail(i))
    {
      hide Pow2, ToBits, BytesBits, BitOr;
      assert Pow2(0) == 1 by { Pow2Values(); }
      var j := i;
      ghost var out: bytes := [];
      while j >= 128
        invariant data == old(data) + out && bitOffset == 8
        invariant out + Tail(j) == Tail(i)
      {
        TailStep(old(data), out, j);
        data := data + [j % 128 + 128];
        out := out + [j % 128 + 128];
        j := j / 128;
      }
      data := data + [j];
      ConcatAssoc(old(data), out, [j]);
      WrittenWhole(old(data), Tail(i));
    }

    method WriteHuffmanChar(code: CodeMap, c: byte)
      requires Valid() && c in code
      modifies this
      ensures Valid() && Bits() == old(Bits()) + code[c]
    {
      WriteBits(code[c]);
    }

    method WriteHuffmanString(code: CodeMap, s: bytes)
      requires Valid() && bitOffset == 8 && Complete(code)
      modifies this
      ensures Valid() && bitOffset == 8
      ensures Bits() == old(Bits()) + HuffmanBits(code, s)
    {
      hide Pow2, ToBits, BytesBits, BitOr, CodeBits, Written, PadLength;
      assert CodeBits(code, s[..0]) == [] by { EmptyCode(code); }
      var i := 0;
      while i < |s|
        invariant 0 <= i <= |s|
        invariant Valid()
        invariant Bits() == old(Bits()) + CodeBits(code, s[..i])
      {
        WriteHuffmanChar(code, s[i]);
        i := i + 1;
        CodeBitsSnoc(code, s[..i]);
        assert s[..i][..i - 1] == s[..i - 1] && s[..i][i - 1] == s[i - 1];
      }
      assert s[..i] == s;
      ghost var w := CodeBits(code, s);
      assert |old(Bits())| % 8 == 0;
      PadAligned(|old(Bits())|, |w|);
      ConcatAssoc(old(Bits()), w, Ones(PadLength(|w|)));
      WritePadding();
    }

    /** Ones up to the next byte boundary. */
    method WritePadding()
      requires Valid()
      modifies this
      ensures Valid() && bitOffset == 8 && Bits() == old(Bits()) + Ones(PadLength(|old(Bits())|))
    {
      hide Pow2, ToBits, BytesBits, BitOr, Written, PadLength;
      ghost var b := Bits();
      ghost var k := 0;
      PadExact(|b|, k);
      while bitOffset != 8
        invariant Valid() && Bits() == b + Ones(k) && k <= PadLength(|b|)
        invariant bitOffset == 8 <==> k == PadLength(|b|)
        decreases PadLength(|b|) - k
      {
        WriteBit(true);
        OneMore(b, k);
        k := k + 1;
        assert |Bits()| == |b| + k;
        PadExact(|b|, k);
      }
    }

    method WriteString(s: bytes)
      requires Valid() && bitOffset == 8
      modifies this
      ensures Valid() && bitOffset == 8 && Bits() == old(Bits()) + BytesBits(s)
    {
      WrittenWhole(data, s);
      data := data + s;
    }
  }

  lemma OneBit(b: bool)
    ensures ToBits(if b then 1 else 0, 1) == [b]
  {
  }

  lemma PadExact(n: nat, k: nat)
    requires k <= PadLength(n)
    ensures (n + k) % 8 == 0 <==> k == PadLength(n)
  {
  }

  lemma PadAligned(a: nat, b: nat)
    requires a % 8 == 0
    ensures PadLength(a + b) == PadLength(b)
  {
  }

  lemma EmptyCode(code: CodeMap)
    requires Complete(code)
    ensures CodeBits(code, []) == []
  {
  }

  lemma OneMore(b: seq<bool>, k: nat)
    ensures b + Ones(k) + [true] == b + Ones(k + 1)
  {
  }

  lemma {:induction false} CodeBitsSnoc(code: CodeMap, s: bytes)
    requires Complete(code) && s != []
    ensures CodeBits(code, s) == CodeBits(code, s[..|s| - 1]) + code[s[|s| - 1]]
  {
    if |s| == 1 {
      assert s[1..] == [] && s[..0] == [];
    } else {
      CodeBitsSnoc(code, s[1..]);
      assert s[1..][..|s| - 2] == s[..|s| - 1][1..];
      ConcatAssoc(code[s[0]], CodeBits(code, s[..|s| - 1][1..]), code[s[|s| - 1]]);
    }
  }

  // ---------- the reader ----------

  ghost function Unread(data: bytes, byteOffset: nat, bitOffset: nat): (r: seq<bool>)
    requires 8 * byteOffset + bitOffset <= 8 * |data|
    ensures |r| == 8 * |data| - 8 * byteOffset - bitOffset
  {
    BytesBits(data)[8 * byteOffset + bitOffset..]
  }

  /** The unread bits are those left in the current byte, then the bytes after it. */
  lemma UnreadSplit(data: bytes, byteOffset: nat, bitOffset: nat)
    requires byteOffset < |data| && bitOffset < 8
    ensures Unread(data, byteOffset, bitOffset) ==
            ToBits(data[byteOffset], 8)[bitOffset..] + Unread(data, byteOffset + 1, 0)
  {
    BytesBitsFrom(data, byteOffset);
    BytesBitsFrom(data, byteOffset + 1);
    var x, after := ToBits(data[byteOffset], 8), BytesBits(data[byteOffset + 1..]);
    assert BytesBits(data)[8 * byteOffset..][bitOffset..] == BytesBits(data)[8 * byteOffset + bitOffset..];
    assert (x + after)[bitOffset..] == x[bitOffset..] + after;
  }

  /** The value of `start` is `i` plus 2^m times the value still to be read. */
  ghost predicate Resumes(start: seq<bool>, rem: seq<bool>, i: nat, m: nat)
  {
    match ReadTail(rem)
    case None => ReadTail(start) == None
    case Some((v, rest)) => ReadTail(start) == Some((i + Pow2(m) * v, rest))
  }

  lemma ResumeStep(start: seq<bool>, b: byte, rest: seq<bool>, i: nat, m: nat)
    requires Resumes(start, ToBits(b, 8) + rest, i, m)
    ensures b >= 128 ==> Resumes(start, rest, i + b % 128 * Pow2(m), m + 7)
    ensures b < 128 ==> ReadTail(start) == Some((i + b % 128 * Pow2(m), rest))
  {
    hide ReadTail, Pow2, ToBits;
    ReadTailByte(b, rest);
    if b >= 128 && ReadTail(rest).Some? {
      SevenMore(m, b % 128, ReadTail(rest).value.0);
    }
  }

  lemma SevenMore(m: nat, x: nat, v: nat)
    ensures Pow2(m) * (x + 128 * v) == x * Pow2(m) + Pow2(m + 7) * v
  {
    Pow2Values();
    Pow2Add(m, 7);
    Regroup(Pow2(m), x, v);
  }

  lemma Regroup(p: nat, x: nat, v: nat)
    ensures p * (x + 128 * v) == x * p + (p * 128) * v
  {
  }

  class BitDecoder {
    const data: bytes
    var byteOffset: nat
    var bitOffset: nat

    ghost predicate Valid()
      reads this
    {
      byteOffset <= |data| && bitOffset < 8 && (byteOffset == |data| ==> bitOffset == 0)
    }

    ghost function Rem(): seq<bool>
      requires Valid()
      reads this
    {
      Unread(data, byteOffset, bitOffset)
    }

    constructor (data: bytes)
      ensures Valid() && this.data == data && Rem() == BytesBits(data)
    {
      this.data := data;
      byteOffset, bitOffset := 0, 0;
    }

    predicate Eod()
      requires Valid()
      reads this
      ensures Eod() <==> Rem() == []
    {
      byteOffset >= |data|
    }

    /** None stands for EODError. */
    method ReadBit() returns (r: Option<bool>)
      requires Valid()
      modifies this
      ensures Valid()
      ensures r.None? <==> old(Rem()) == []
      ensures r.Some? ==> old(Rem()) == [r.value] + Rem()
    {
      hide Pow2, ToBits, BytesBits, Unread;
      if Eod() {
        return None;
      }
      var bit := (data[byteOffset] / Pow2(7 - bitOffset)) % 2 == 1;
      BitAt(data[byteOffset], bitOffset);
      UnreadSplit(data, byteOffset, bitOffset);
      ghost var x := ToBits(data[byteOffset], 8);
      assert x[bitOffset..] == [bit] + x[bitOffset + 1..];
      bitOffset := bitOffset + 1;
      if bitOffset > 7 {
        byteOffset, bitOffset := byteOffset + 1, 0;
      } else {
        UnreadSplit(data, byteOffset, bitOffset);
      }
      return Some(bit);
    }

    /** None stands for IndexError. */
    method ReadHpackInt() returns (r: Option<nat>)
      requires Valid()
      modifies this
      ensures Valid()
      ensures r.Some? <==> ReadInt(old(Rem())).Some?
      ensures r.Some? ==> bitOffset == 0 && ReadInt(old(Rem())) == Some((r.value, Rem()))
    {
      hide ReadInt, ReadTail, Unread, ToBits, FromBits, BytesBits, Pow2;
      if byteOffset >= |data| {
        return None;
      }
      var n := 8 - bitOffset;
      var max := Pow2(n) - 1;
      var i := data[byteOffset] % Pow2(n);
      UnreadSplit(data, byteOffset, bitOffset);
      LowBits(data[byteOffset], bitOffset);
      ghost var prefix := ToBits(data[byteOffset], 8)[bitOffset..];
      bitOffset := 0;
      byteOffset := byteOffset + 1;
      ReadIntPrefix(prefix, Rem());
      if i < max {
        return Some(i);
      }
      var tail := ReadTailBytes();
      if tail.None? {
        return None;
      }
      return Some(i + tail.value);
    }

    /** The loop of `read_hpack_int`, which adds seven more bits of the integer at every byte. */
    method ReadTailBytes() returns (r: Option<nat>)
      requires Valid() && bitOffset == 0
      modifies this
      ensures Valid() && bitOffset == 0
      ensures r.Some? <==> ReadTail(old(Rem())).Some?
      ensures r.Some? ==> ReadTail(old(Rem())) == Some((r.value, Rem()))
    {
      hide ToBits, BytesBits;
      var i: nat, m: nat := 0, 0;
      ghost var start := Rem();
      while true
        invariant Valid() && bitOffset == 0
        invariant Resumes(start, Rem(), i, m)
        decreases |data| - byteOffset
      {
        if byteOffset >= |data| {
          return None;
        }
        var b := data[byteOffset];
        UnreadSplit(data, byteOffset, 0);
        assert ToBits(b, 8)[0..] == ToBits(b, 8);
        ResumeStep(start, b, Unread(data, byteOffset + 1, 0), i, m);
        byteOffset := byteOffset + 1;
        i := i + b % 128 * Pow2(m);
        m := m + 7;
        if b < 128 {
          break;
        }
      }
      return Some(i);
    }

    /**
     * Walks the tree bit by bit, creating dictionaries for paths it does not hold. None stands
     * for EODError, Some(None) for reaching `limit` before a leaf.
     */
    method ReadHuffmanChar(tree: Tree, limit: nat) returns (r: Option<Option<byte>>)
      requires Valid() && tree.Valid()
      modifies this, tree
      ensures Valid() && tree.Valid() && tree.Leaves() == old(tree.Leaves())
      ensures match ReadChar(old(tree.Leaves()), old(Rem()), 8 * (|data| - limit), [])
              case EndOfData => r == None
              case NoChar(rest) => r == Some(None) && Rem() == rest
              case Char(c, rest) => r == Some(Some(c)) && Rem() == rest
    {
      var node: seq<bool> := [];
      ghost var stop := 8 * (|data| - limit);
      while byteOffset < limit
        invariant Valid() && tree.Valid() && tree.Leaves() == old(tree.Leaves())
        invariant InnerAt(tree.cells, node)
        invariant ReadChar(old(tree.Leaves()), old(Rem()), stop, []) == ReadChar(old(tree.Leaves()), Rem(), stop, node)
        decreases |Rem()|
      {
        ghost var rem := Rem();
        var bit := ReadBit();
        if bit.None? {
          return None;
        }
        assert rem[0] == bit.value && rem[1..] == Rem();
        node := tree.Child(node, bit.value);
        assert node in tree.Leaves() <==> tree.cells[node].Leaf?;
        if tree.cells[node].Leaf? {
          return Some(Some(tree.cells[node].key));
        }
      }
      return Some(None);
    }

    /** None stands for IndexError. */
    method ReadChar8() returns (r: Option<byte>)
      requires Valid() && bitOffset == 0
      modifies this
      ensures Valid() && bitOffset == 0
      ensures r.None? <==> old(Rem()) == []
      ensures r.Some? ==> old(Rem()) == ToBits(r.value, 8) + Rem()
    {
      if byteOffset >= |data| {
        return None;
      }
      var ch := data[byteOffset];
      UnreadSplit(data, byteOffset, 0);
      assert ToBits(ch, 8)[0..] == ToBits(ch, 8);
      byteOffset := byteOffset + 1;
      return Some(ch);
    }
  }
}
