/** Integers with an n-bit prefix (section 5.1 of RFC 7541), as functions on bits. */
module HpackInt {
  import opened Bits

  /** What a reader returns: a value and the bits it has not consumed. */
  type Reading<+T> = Option<(T, seq<bool>)>

  /** Bits left in the current byte when `left` bits of a whole number of bytes are unread. */
  function PrefixWidth(left: nat): (n: nat)
    ensures 1 <= n <= 8
    ensures left > 0 ==> n <= left && (left - n) % 8 == 0
  {
    if left % 8 == 0 then 8 else left % 8
  }

  // ---------- writing ----------

  /** The bytes after a prefix that is all ones: seven bits each, least significant group first. */
  function Tail(i: nat): (r: bytes)
    ensures |r| >= 1
  {
    if i >= 128 then [i % 128 + 128] + Tail(i / 128) else [i]
  }

  function IntBits(n: nat, i: nat): (r: seq<bool>)
    requires 1 <= n <= 8
    ensures |r| >= n && (|r| - n) % 8 == 0
  {
    var max := Pow2(n) - 1;
    if i < max then ToBits(i, n) else ToBits(max, n) + BytesBits(Tail(i - max))
  }

  // ---------- reading ----------

  function ReadTail(rem: seq<bool>): (r: Reading<nat>)
    ensures r.Some? ==> |r.value.1| + 8 <= |rem| && |r.value.1| % 8 == |rem| % 8
  {
    if |rem| < 8 then None
    else
      var b := FromBits(rem[..8]);
      if b < 128 then Some((b, rem[8..]))
      else
        ByteLess(|rem|);
        var (v, rest) :- ReadTail(rem[8..]);
        Some((b - 128 + 128 * v, rest))
  }

  lemma ByteLess(n: nat)
    requires n >= 8
    ensures (n - 8) % 8 == n % 8
  {
  }

  /** What a reader makes of a prefix and the rest of the data. */
  function Interpret(prefix: seq<bool>, more: seq<bool>): (r: Reading<nat>)
    ensures r.Some? ==> |r.value.1| <= |more| && |r.value.1| % 8 == |more| % 8
  {
    var i, max := FromBits(prefix), Pow2(|prefix|) - 1;
    if i < max then Some((i, more))
    else
      var (v, rest) :- ReadTail(more);
      Some((max + v, rest))
  }

  function ReadInt(rem: seq<bool>): (r: Reading<nat>)
    ensures r.Some? ==> |r.value.1| < |rem| && |r.value.1| % 8 == 0
  {
    if rem == [] then None
    else
      var n := PrefixWidth(|rem|);
      Interpret(rem[..n], rem[n..])
  }

  // ---------- the reader inverts the writer ----------

  lemma ByteBits(b: byte, rest: seq<bool>)
    ensures (ToBits(b, 8) + rest)[..8] == ToBits(b, 8) && (ToBits(b, 8) + rest)[8..] == rest
    ensures FromBits(ToBits(b, 8)) == b
  {
    TakeDrop(ToBits(b, 8), rest);
    Pow2Values();
    FromToBits(b, 8);
  }

  lemma ReadTailByte(b: byte, rest: seq<bool>)
    ensures ReadTail(ToBits(b, 8) + rest) ==
            if b < 128 then Some((b, rest))
            else match ReadTail(rest)
                 case None => None
                 case Some((v, after)) => Some((b - 128 + 128 * v, after))
  {
    ByteBits(b, rest);
  }

  lemma {:induction false} ReadTailRoundTrip(i: nat, rest: seq<bool>)
    ensures ReadTail(BytesBits(Tail(i)) + rest) == Some((i, rest))
  {
    hide ReadTail, ToBits, BytesBits;
    if i >= 128 {
      var b, t := i % 128 + 128, BytesBits(Tail(i / 128));
      ReadTailRoundTrip(i / 128, rest);
      BytesBitsCons(b, Tail(i / 128));
      ConcatAssoc(ToBits(b, 8), t, rest);
      ReadTailByte(b, t + rest);
    } else {
      BytesBitsSingleton(i);
      ReadTailByte(i, rest);
    }
  }

  lemma ReadIntPrefix(prefix: seq<bool>, more: seq<bool>)
    requires 1 <= |prefix| <= 8 && |more| % 8 == 0
    ensures ReadInt(prefix + more) == Interpret(prefix, more)
  {
    hide Interpret, PrefixWidth;
    PrefixWidthOf(|prefix|, |more|);
    TakeDrop(prefix, more);
    assert |prefix + more| == |prefix| + |more|;
  }

  lemma PrefixWidthOf(n: nat, left: nat)
    requires 1 <= n <= 8 && left % 8 == 0
    ensures PrefixWidth(n + left) == n
  {
  }

  /** Reading what was written returns the integer and stops exactly after it, on a byte boundary. */
  lemma ReadIntRoundTrip(n: nat, i: nat, rest: seq<bool>)
    requires 1 <= n <= 8 && |rest| % 8 == 0
    ensures ReadInt(IntBits(n, i) + rest) == Some((i, rest))
  {
    hide ReadInt, ReadTail, Tail, ToBits, FromBits, BytesBits, Pow2, PrefixWidth;
    var max := Pow2(n) - 1;
    if i < max {
      FromToBits(i, n);
      ReadIntPrefix(ToBits(i, n), rest);
    } else {
      var t := BytesBits(Tail(i - max));
      FromToBits(max, n);
      ConcatAssoc(ToBits(max, n), t, rest);
      ReadTailRoundTrip(i - max, rest);
      ReadIntPrefix(ToBits(max, n), t + rest);
    }
  }

  // ---------- what the bytes behind a prefix stand for ----------

  /** Seven bits from every byte, least significant group first. */
  function GroupsValue(groups: bytes): nat {
    if groups == [] then 0 else groups[0] % 128 + 128 * GroupsValue(groups[1..])
  }

  /** All bytes but the last have their top bit set. */
  predicate Continued(groups: bytes) {
    && groups != []
    && groups[|groups| - 1] < 128
    && forall k :: 0 <= k < |groups| - 1 ==> groups[k] >= 128
  }

  lemma {:induction false} ReadTailValue(groups: bytes, rest: seq<bool>)
    requires Continued(groups)
    ensures ReadTail(BytesBits(groups) + rest) == Some((GroupsValue(groups), rest))
  {
    hide ReadTail, ToBits, BytesBits;
    var b, more := groups[0], groups[1..];
    assert groups == [b] + more;
    BytesBitsCons(b, more);
    ConcatAssoc(ToBits(b, 8), BytesBits(more), rest);
    ReadTailByte(b, BytesBits(more) + rest);
    if b >= 128 {
      ReadTailValue(more, rest);
    } else {
      assert more == [];
      assert BytesBits(more) + rest == rest by {
        BytesBitsConcat([], []);
      }
    }
  }

  /** On any continuation, shortest or not: a prefix below its maximum is the integer, the groups add to the maximum. */
  lemma IntMeaning(n: nat, p: nat, groups: bytes, rest: seq<bool>)
    requires 1 <= n <= 8 && p < Pow2(n) && Continued(groups) && |rest| % 8 == 0
    ensures p < Pow2(n) - 1 ==> ReadInt(ToBits(p, n) + rest) == Some((p, rest))
    ensures p == Pow2(n) - 1 ==>
              ReadInt(ToBits(p, n) + (BytesBits(groups) + rest)) == Some((p + GroupsValue(groups), rest))
  {
    hide ReadInt, ReadTail, ToBits, FromBits, BytesBits, Pow2, PrefixWidth, GroupsValue, Continued;
    FromToBits(p, n);
    ReadIntPrefix(ToBits(p, n), rest);
    ReadIntPrefix(ToBits(p, n), BytesBits(groups) + rest);
    ReadTailValue(groups, rest);
  }

  lemma {:induction false} TailIsGroups(i: nat)
    ensures Continued(Tail(i)) && GroupsValue(Tail(i)) == i
  {
    if i >= 128 {
      TailIsGroups(i / 128);
      assert Tail(i)[1..] == Tail(i / 128);
    }
  }

  // ---------- the written form is the unique shortest accepted one ----------

  lemma {:induction false} ReadTailShortest(e: seq<bool>, i: nat)
    requires ReadTail(e) == Some((i, []))
    ensures |e| >= 8 * |Tail(i)|
    ensures |e| == 8 * |Tail(i)| ==> e == BytesBits(Tail(i))
  {
    var b, e' := FromBits(e[..8]), e[8..];
    Pow2Values();
    ToFromBits(e[..8]);
    assert e == ToBits(b, 8) + e';
    if b < 128 {
      BytesBitsSingleton(b);
      assert e' == [];
    } else {
      var v := ReadTail(e').value.0;
      ReadTailShortest(e', v);
      if v > 0 {
        assert i / 128 == v && i % 128 + 128 == b;
        BytesBitsCons(b, Tail(v));
      }
    }
  }

  /** No accepted encoding of i is shorter than the written one, and none of the same length differs from it. */
  lemma IntBitsShortest(e: seq<bool>, i: nat)
    requires ReadInt(e) == Some((i, []))
    ensures var w := IntBits(PrefixWidth(|e|), i);
            |w| <= |e| && (|w| == |e| ==> w == e)
  {
    hide ReadTail, Tail, ToBits, FromBits, BytesBits, Pow2, PrefixWidth;
    var n := PrefixWidth(|e|);
    var max := Pow2(n) - 1;
    ToFromBits(e[..n]);
    assert e == e[..n] + e[n..];
    if FromBits(e[..n]) < max {
      assert e[n..] == [];
    } else {
      ReadTailShortest(e[n..], i - max);
    }
  }

  lemma {:induction false} TailPrefixRejected(i: nat, k: nat)
    requires k < |Tail(i)|
    ensures ReadTail(BytesBits(Tail(i)[..k])) == None
  {
    if k > 0 {
      var b, t := i % 128 + 128, Tail(i / 128);
      assert Tail(i)[..k] == [b] + t[..k - 1];
      BytesBitsCons(b, t[..k - 1]);
      ReadTailByte(b, BytesBits(t[..k - 1]));
      TailPrefixRejected(i / 128, k - 1);
    }
  }

  lemma OnesThenTail(n: nat, i: nat)
    requires 1 <= n <= 8 && i >= Pow2(n) - 1
    ensures var max := Pow2(n) - 1;
            IntBits(n, i) == ToBits(max, n) + BytesBits(Tail(i - max)) && FromBits(ToBits(max, n)) == max
  {
    hide Tail, ToBits, FromBits, BytesBits, Pow2;
    FromToBits(Pow2(n) - 1, n);
  }

  /** Cutting a written integer short after any number of whole bytes makes it unreadable. */
  lemma IntBitsPrefixRejected(n: nat, i: nat, j: nat)
    requires 1 <= n <= 8
    requires n + 8 * j < |IntBits(n, i)|
    ensures ReadInt(IntBits(n, i)[..n + 8 * j]) == None
  {
    hide ReadInt, ReadTail, Tail, ToBits, FromBits, BytesBits, Pow2, PrefixWidth;
    var max := Pow2(n) - 1;
    OnesThenTail(n, i);
    var ones, t := ToBits(max, n), Tail(i - max);
    TailPrefixRejected(i - max, j);
    ReadIntPrefix(ones, BytesBits(t[..j]));
    CutAfter(ones, t, j);
  }

  lemma CutAfter(ones: seq<bool>, t: bytes, j: nat)
    requires j <= |t|
    ensures (ones + BytesBits(t))[..|ones| + 8 * j] == ones + BytesBits(t[..j])
  {
    hide BytesBits;
    BytesBitsConcat(t[..j], t[j..]);
    assert t == t[..j] + t[j..];
    ConcatAssoc(ones, BytesBits(t[..j]), BytesBits(t[j..]));
    TakeDrop(ones + BytesBits(t[..j]), BytesBits(t[j..]));
  }
}
