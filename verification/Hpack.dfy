/** Header blocks (sections 2.3, 5.2 and 6 of RFC 7541) as functions on bits, and the synchronisation theorem. */
module Hpack {
  import opened Bits
  import opened HpackInt
  import opened Huffman
  import opened DynamicTable
  import opened StaticTable

  datatype Mode = YES | NO | NEVER

  /** A header as given to the encoder. */
  datatype Header = Header(name: bytes, value: bytes, mode: Mode)

  /** A header as returned by the decoder; a static line without a value yields None. */
  datatype Decoded = Decoded(name: bytes, value: Option<bytes>, mode: Mode)

  /** The constants both sides work with, and whether the encoder uses Huffman coding. */
  datatype Codec = Codec(st: Static, code: CodeMap, leaves: Leaves, huffman: bool)

  ghost predicate ValidCodec(cx: Codec) {
    cx.st.Valid() && ValidCode(cx.code, cx.leaves)
  }

  // ---------- encoding ----------

  function LowerByte(b: byte): byte {
    if 65 <= b <= 90 then b + 32 else b
  }

  function Lower(s: bytes): (r: bytes)
    ensures |r| == |s|
  {
    seq(|s|, i requires 0 <= i < |s| => LowerByte(s[i]))
  }

  function IndexOf(entries: seq<Entry>, e: Entry): (r: Option<nat>)
    ensures r.None? <==> e !in entries
    ensures r.Some? ==> r.value < |entries| && entries[r.value] == e
    ensures r.Some? ==> forall j :: 0 <= j < r.value ==> entries[j] != e
  {
    if entries == [] then None
    else if entries[0] == e then Some(0)
    else
      var i :- IndexOf(entries[1..], e);
      Some(i + 1)
  }

  /** The static table first, then the dynamic table. */
  function FindPair(cx: Codec, t: Table, name: bytes, value: bytes): Option<nat> {
    var p := StaticEntry(name, Some(value));
    if p in cx.st.pairs then Some(cx.st.pairs[p])
    else
      var i :- IndexOf(t.entries, Entry(name, value));
      Some(i + cx.st.Length())
  }

  /** Names are only ever found in the static table. */
  function FindKey(cx: Codec, name: bytes): Option<nat> {
    if name in cx.st.keys then Some(cx.st.keys[name]) else None
  }

  function Payload(cx: Codec, s: bytes): (r: seq<bool>)
    requires ValidCodec(cx)
    ensures |r| % 8 == 0
  {
    if cx.huffman then HuffmanBits(cx.code, s) else BytesBits(s)
  }

  function StringBits(cx: Codec, s: bytes): (r: seq<bool>)
    requires ValidCodec(cx)
  {
    var p := Payload(cx, s);
    [cx.huffman] + IntBits(7, |p| / 8) + p
  }

  /** The name (an index in an n-bit prefix, or zero and a literal) and the literal value. */
  function PairBits(cx: Codec, n: nat, name: bytes, value: bytes): (r: seq<bool>)
    requires ValidCodec(cx) && 1 <= n <= 8
  {
    match FindKey(cx, name)
    case Some(idx) => IntBits(n, idx) + StringBits(cx, value)
    case None => IntBits(n, 0) + StringBits(cx, name) + StringBits(cx, value)
  }

  /** The bits of one header, whose name is already in lower case, and the table after it. */
  function EncodeHeader(cx: Codec, t: Table, h: Header): (r: (seq<bool>, Table))
    requires ValidCodec(cx) && t.Valid()
    ensures r.1.Valid() && r.1.limit == t.limit
  {
    match FindPair(cx, t, h.name, h.value)
    case Some(idx) => ([true] + IntBits(7, idx), t)
    case None =>
      match h.mode
      case YES => ([false, true] + PairBits(cx, 6, h.name, h.value), Add(t, Entry(h.name, h.value)))
      case NEVER => ([false, false, false, true] + PairBits(cx, 4, h.name, h.value), t)
      case NO => ([false, false, false, false] + PairBits(cx, 4, h.name, h.value), t)
  }

  function LowerHeader(h: Header): Header {
    h.(name := Lower(h.name))
  }

  function EncodeBlock(cx: Codec, t: Table, hs: seq<Header>): (r: (seq<bool>, Table))
    requires ValidCodec(cx) && t.Valid()
    ensures r.1.Valid() && r.1.limit == t.limit
    decreases |hs|
  {
    if hs == [] then ([], t)
    else
      var (b, t') := EncodeHeader(cx, t, LowerHeader(hs[0]));
      var (bs, t'') := EncodeBlock(cx, t', hs[1..]);
      (b + bs, t'')
  }

  /** The block of a header that is in no table has at least a bit for every byte of its value. */
  lemma BlockAtLeast(cx: Codec, t: Table, h: Header)
    requires ValidCodec(cx) && t.Valid() && FindPair(cx, t, Lower(h.name), h.value).None?
    ensures |EncodeBlock(cx, t, [h]).0| >= |h.value|
  {
    hide ValidCodec, FindPair, FindKey, HuffmanBits, Lower, Add;
    PayloadAtLeast(cx, h.value);
    assert [h][1..] == [];
  }

  lemma PayloadAtLeast(cx: Codec, s: bytes)
    requires ValidCodec(cx)
    ensures |Payload(cx, s)| >= |s|
  {
    CodeBitsAtLeast(cx.code, s);
  }

  // ---------- everything written fills whole bytes ----------

  ghost predicate Whole(b: seq<bool>) {
    |b| % 8 == 0
  }

  lemma WholeConcat(a: seq<bool>, b: seq<bool>)
    requires Whole(b)
    ensures Whole(a + b) <==> Whole(a)
  {
  }

  lemma WholeInt(a: seq<bool>, n: nat, i: nat)
    requires 1 <= n <= 8 && |a| + n == 8
    ensures Whole(a + IntBits(n, i))
  {
  }

  lemma WholeString(cx: Codec, s: bytes)
    requires ValidCodec(cx)
    ensures Whole(StringBits(cx, s))
  {
    var p := Payload(cx, s);
    WholeInt([cx.huffman], 7, |p| / 8);
    WholeConcat([cx.huffman] + IntBits(7, |p| / 8), p);
  }

  lemma WholePair(cx: Codec, a: seq<bool>, n: nat, name: bytes, value: bytes)
    requires ValidCodec(cx) && 1 <= n <= 8 && |a| + n == 8
    ensures Whole(a + PairBits(cx, n, name, value))
  {
    hide Whole, IntBits, StringBits, ValidCodec;
    var v := StringBits(cx, value);
    WholeString(cx, value);
    match FindKey(cx, name)
    case Some(idx) =>
      WholeInt(a, n, idx);
      WholeConcat(a + IntBits(n, idx), v);
      ConcatAssoc(a, IntBits(n, idx), v);
    case None =>
      var k := StringBits(cx, name);
      WholeInt(a, n, 0);
      WholeString(cx, name);
      WholeConcat(a + IntBits(n, 0), k);
      WholeConcat(a + IntBits(n, 0) + k, v);
      assert a + (IntBits(n, 0) + k + v) == a + IntBits(n, 0) + k + v;
  }

  lemma WholeHeader(cx: Codec, t: Table, h: Header)
    requires ValidCodec(cx) && t.Valid()
    ensures Whole(EncodeHeader(cx, t, h).0)
  {
    hide Whole, IntBits, PairBits, ValidCodec;
    match FindPair(cx, t, h.name, h.value)
    case Some(idx) => WholeInt([true], 7, idx);
    case None =>
      match h.mode
      case YES => WholePair(cx, [false, true], 6, h.name, h.value);
      case NEVER => WholePair(cx, [false, false, false, true], 4, h.name, h.value);
      case NO => WholePair(cx, [false, false, false, false], 4, h.name, h.value);
  }

  lemma {:induction false} WholeBlock(cx: Codec, t: Table, hs: seq<Header>)
    requires ValidCodec(cx) && t.Valid()
    ensures Whole(EncodeBlock(cx, t, hs).0)
    decreases |hs|
  {
    hide ValidCodec, EncodeHeader;
    if hs != [] {
      var h := LowerHeader(hs[0]);
      var (b, t') := EncodeHeader(cx, t, h);
      WholeHeader(cx, t, h);
      WholeBlock(cx, t', hs[1..]);
      WholeConcat(b, EncodeBlock(cx, t', hs[1..]).0);
    }
  }

  // ---------- decoding ----------

  /** None stands for the TypeError of index 0 and the IndexError of an index past the tables. */
  function ReadFromIndex(cx: Codec, t: Table, idx: nat): Option<StaticEntry> {
    if idx < cx.st.Length() then
      if idx == 0 then None else Some(cx.st.rows[idx - 1])
    else if idx - cx.st.Length() < |t.entries| then
      var e := t.entries[idx - cx.st.Length()];
      Some(StaticEntry(e.name, Some(e.value)))
    else None
  }

  function ReadString(cx: Codec, rem: seq<bool>): (r: Reading<bytes>)
    ensures r.Some? ==> |r.value.1| < |rem| && |r.value.1| % 8 == 0
  {
    if rem == [] then None
    else
      var (length, rest) :- ReadInt(rem[1..]);
      BytesLess(|rest|, length);
      if rem[0] then
        var (s, after) :- ReadChars(cx.leaves, rest, |rest| - 8 * length);
        Some((s, after))
      else if |rest| < 8 * length then None
      else Some((BitsBytes(rest[..8 * length]), rest[8 * length..]))
  }

  lemma BytesLess(n: nat, k: nat)
    requires n % 8 == 0
    ensures (n - 8 * k) % 8 == 0
  {
  }

  function ReadPair(cx: Codec, t: Table, rem: seq<bool>): (r: Reading<(bytes, bytes)>)
    ensures r.Some? ==> |r.value.1| < |rem| && |r.value.1| % 8 == 0
  {
    var (idx, rest) :- ReadInt(rem);
    if idx == 0 then
      var (name, after) :- ReadString(cx, rest);
      var (value, end) :- ReadString(cx, after);
      Some(((name, value), end))
    else
      var e :- ReadFromIndex(cx, t, idx);
      var (value, end) :- ReadString(cx, rest);
      Some(((e.name, value), end))
  }

  datatype Field =
    | Bad
    | Found(h: Decoded, added: bool, rest: seq<bool>)
    | NewLimit(limit: nat, rest: seq<bool>)

  /** One field representation (section 6 of RFC 7541). */
  function ReadField(cx: Codec, t: Table, rem: seq<bool>, limitAllowed: bool): (r: Field)
    ensures !r.Bad? ==> |r.rest| < |rem| && |r.rest| % 8 == 0
    ensures r.Found? && r.added ==> r.h.value.Some?
  {
    if rem == [] then Bad
    else if rem[0] then
      match ReadInt(rem[1..])
      case None => Bad
      case Some((idx, rest)) =>
        match ReadFromIndex(cx, t, idx)
        case None => Bad
        case Some(e) => Found(Decoded(e.name, e.value, YES), false, rest)
    else if |rem| < 2 then Bad
    else if rem[1] then
      match ReadPair(cx, t, rem[2..])
      case None => Bad
      case Some(((name, value), rest)) => Found(Decoded(name, Some(value), YES), true, rest)
    else if |rem| < 3 then Bad
    else if rem[2] then
      if !limitAllowed then Bad
      else
        match ReadInt(rem[3..])
        case None => Bad
        case Some((limit, rest)) => NewLimit(limit, rest)
    else if |rem| < 4 then Bad
    else
      match ReadPair(cx, t, rem[4..])
      case None => Bad
      case Some(((name, value), rest)) => Found(Decoded(name, Some(value), if rem[3] then NEVER else NO), false, rest)
  }

  function TableAfter(t: Table, h: Decoded, added: bool): (r: Table)
    requires t.Valid() && (added ==> h.value.Some?)
    ensures r.Valid()
  {
    if added then Add(t, Entry(h.name, h.value.value)) else t
  }

  /** The headers of a block, or None for HpackError, and in either case the table left behind. */
  function DecodeBlock(cx: Codec, t: Table, rem: seq<bool>, limitAllowed: bool): (r: (Option<seq<Decoded>>, Table))
    requires t.Valid()
    ensures r.1.Valid()
    decreases |rem|
  {
    if rem == [] then (Some([]), t)
    else
      match ReadField(cx, t, rem, limitAllowed)
      case Bad => (None, t)
      case NewLimit(limit, rest) => DecodeBlock(cx, Resize(t, limit), rest, limitAllowed)
      case Found(h, added, rest) => Prepend(h, DecodeBlock(cx, TableAfter(t, h, added), rest, false))
  }

  function Prepend(h: Decoded, r: (Option<seq<Decoded>>, Table)): (Option<seq<Decoded>>, Table) {
    match r.0
    case None => r
    case Some(hs) => (Some([h] + hs), r.1)
  }

  function PrependAll(hs: seq<Decoded>, r: (Option<seq<Decoded>>, Table)): (Option<seq<Decoded>>, Table) {
    match r.0
    case None => r
    case Some(more) => (Some(hs + more), r.1)
  }

  // ---------- what a peer is expected to see ----------

  /** The name in lower case; the mode is lost when the pair is already in a table. */
  function Seen(cx: Codec, t: Table, h: Header): (d: Decoded)
    ensures d.value.Some?
  {
    Decoded(h.name, Some(h.value), if FindPair(cx, t, h.name, h.value).Some? then YES else h.mode)
  }

  /** Only a pair that is in neither table, sent with mode YES, enters the dynamic table. */
  predicate Added(cx: Codec, t: Table, h: Header) {
    FindPair(cx, t, h.name, h.value).None? && h.mode == YES
  }

  function SeenBlock(cx: Codec, t: Table, hs: seq<Header>): (r: seq<Decoded>)
    requires t.Valid()
    ensures |r| == |hs|
    decreases |hs|
  {
    if hs == [] then []
    else
      var h := LowerHeader(hs[0]);
      var d := Seen(cx, t, h);
      [d] + SeenBlock(cx, TableAfter(t, d, Added(cx, t, h)), hs[1..])
  }

  // ---------- one field reads back ----------

  lemma StringRoundTrip(cx: Codec, s: bytes, rest: seq<bool>)
    requires ValidCodec(cx) && Whole(rest)
    ensures ReadString(cx, StringBits(cx, s) + rest) == Some((s, rest))
  {
    hide ReadInt, IntBits, ReadChars, HuffmanBits, BytesBits, BitsBytes;
    var p := Payload(cx, s);
    var n := |p| / 8;
    var rem := StringBits(cx, s) + rest;
    assert rem == [cx.huffman] + (IntBits(7, n) + (p + rest));
    assert rem[1..] == IntBits(7, n) + (p + rest);
    WholeConcat(p, rest);
    ReadIntRoundTrip(7, n, p + rest);
    if cx.huffman {
      HuffmanRoundTrip(cx.code, cx.leaves, s, rest);
    } else {
      BytesBitsBytes(s);
      TakeDrop(p, rest);
    }
  }

  /** The encoder names only static lines, and the earliest with that name. */
  lemma KeyFound(cx: Codec, t: Table, name: bytes)
    requires ValidCodec(cx)
    ensures FindKey(cx, name).Some? <==> exists e :: e in cx.st.rows && e.name == name
    ensures FindKey(cx, name).Some? ==>
              var idx := FindKey(cx, name).value;
              && 1 <= idx < cx.st.Length()
              && ReadFromIndex(cx, t, idx).Some? && ReadFromIndex(cx, t, idx).value.name == name
              && forall j :: 0 <= j < idx - 1 ==> cx.st.rows[j].name != name
  {
  }

  lemma PairRoundTrip(cx: Codec, t: Table, n: nat, name: bytes, value: bytes, rest: seq<bool>)
    requires ValidCodec(cx) && 1 <= n <= 8 && Whole(rest)
    ensures ReadPair(cx, t, PairBits(cx, n, name, value) + rest) == Some(((name, value), rest))
  {
    hide ReadInt, ReadString, IntBits, StringBits, ValidCodec;
    var v := StringBits(cx, value);
    WholeString(cx, value);
    WholeConcat(v, rest);
    StringRoundTrip(cx, value, rest);
    match FindKey(cx, name)
    case Some(idx) =>
      KeyFound(cx, t, name);
      ConcatAssoc(IntBits(n, idx), v, rest);
      assert Whole(v + rest);
      ReadIntRoundTrip(n, idx, v + rest);
    case None =>
      var k := StringBits(cx, name);
      WholeString(cx, name);
      WholeConcat(k, v + rest);
      assert IntBits(n, 0) + k + v + rest == IntBits(n, 0) + (k + (v + rest));
      ReadIntRoundTrip(n, 0, k + (v + rest));
      StringRoundTrip(cx, name, v + rest);
  }

  lemma PairsMembership(st: Static, p: StaticEntry)
    requires st.Valid()
    ensures p in st.pairs <==> p in st.rows
    ensures p in st.pairs ==> 1 <= st.pairs[p] < st.Length() && st.rows[st.pairs[p] - 1] == p
  {
  }

  /** An index found by the encoder leads a decoder with the same table to the same pair. */
  lemma IndexAgreement(cx: Codec, t: Table, name: bytes, value: bytes)
    requires ValidCodec(cx)
    ensures FindPair(cx, t, name, value).Some? <==>
            StaticEntry(name, Some(value)) in cx.st.rows || Entry(name, value) in t.entries
    ensures FindPair(cx, t, name, value).Some? ==>
              ReadFromIndex(cx, t, FindPair(cx, t, name, value).value) == Some(StaticEntry(name, Some(value)))
  {
    PairsMembership(cx.st, StaticEntry(name, Some(value)));
    hide *;
    if StaticEntry(name, Some(value)) !in cx.st.pairs {
      DynamicAgreement(cx, t, name, value);
    } else {
      StaticAgreement(cx, t, name, value);
    }
  }

  lemma StaticAgreement(cx: Codec, t: Table, name: bytes, value: bytes)
    requires var p := StaticEntry(name, Some(value));
             p in cx.st.pairs && 1 <= cx.st.pairs[p] < cx.st.Length() && cx.st.rows[cx.st.pairs[p] - 1] == p
    ensures FindPair(cx, t, name, value).Some?
    ensures ReadFromIndex(cx, t, FindPair(cx, t, name, value).value) == Some(StaticEntry(name, Some(value)))
  {
  }

  lemma DynamicAgreement(cx: Codec, t: Table, name: bytes, value: bytes)
    requires StaticEntry(name, Some(value)) !in cx.st.pairs
    ensures FindPair(cx, t, name, value).Some? <==> Entry(name, value) in t.entries
    ensures FindPair(cx, t, name, value).Some? ==>
              ReadFromIndex(cx, t, FindPair(cx, t, name, value).value) == Some(StaticEntry(name, Some(value)))
  {
    hide IndexOf;
  }

  lemma FieldRoundTrip(cx: Codec, t: Table, h: Header, rest: seq<bool>, limitAllowed: bool)
    requires ValidCodec(cx) && t.Valid() && Whole(rest)
    ensures var (b, t') := EncodeHeader(cx, t, h);
            && ReadField(cx, t, b + rest, limitAllowed) == Found(Seen(cx, t, h), Added(cx, t, h), rest)
            && TableAfter(t, Seen(cx, t, h), Added(cx, t, h)) == t'
  {
    hide ReadInt, ReadPair, IntBits, PairBits, ReadFromIndex, FindPair, ValidCodec;
    IndexAgreement(cx, t, h.name, h.value);
    match FindPair(cx, t, h.name, h.value)
    case Some(idx) =>
      ReadIntRoundTrip(7, idx, rest);
      Skip([true], IntBits(7, idx), rest);
    case None =>
      var n := if h.mode == YES then 6 else 4;
      var p := PairBits(cx, n, h.name, h.value);
      PairRoundTrip(cx, t, n, h.name, h.value, rest);
      match h.mode
      case YES => Skip([false, true], p, rest);
      case NEVER => Skip([false, false, false, true], p, rest);
      case NO => Skip([false, false, false, false], p, rest);
  }

  lemma Skip(a: seq<bool>, b: seq<bool>, c: seq<bool>)
    ensures (a + b + c)[|a|..] == b + c
    ensures forall i :: 0 <= i < |a| ==> (a + b + c)[i] == a[i]
  {
  }

  // ---------- whole blocks ----------

  /**
   * Decoding an encoded block followed by anything yields the block's headers followed by what
   * that anything decodes to on the table the encoder is left with.
   */
  lemma {:induction false} BlockThenRest(cx: Codec, t: Table, hs: seq<Header>, rest: seq<bool>, limitAllowed: bool)
    requires ValidCodec(cx) && t.Valid() && Whole(rest)
    ensures var (b, t') := EncodeBlock(cx, t, hs);
            DecodeBlock(cx, t, b + rest, limitAllowed) ==
            PrependAll(SeenBlock(cx, t, hs), DecodeBlock(cx, t', rest, limitAllowed && hs == []))
    decreases |hs|
  {
    hide ReadField, EncodeHeader, DecodeBlock, Seen, Added, TableAfter, Prepend, PrependAll, LowerHeader, Whole,
      ValidCodec;
    if hs == [] {
      NothingThenAll(rest, DecodeBlock(cx, t, rest, limitAllowed));
    } else {
      var h := LowerHeader(hs[0]);
      var (b, t') := EncodeHeader(cx, t, h);
      var (bs, t'') := EncodeBlock(cx, t', hs[1..]);
      ConcatAssoc(b, bs, rest);
      assert Whole(bs + rest) by {
        WholeBlock(cx, t', hs[1..]);
        WholeConcat(bs, rest);
      }
      FieldRoundTrip(cx, t, h, bs + rest, limitAllowed);
      FieldThenRest(cx, t, b + (bs + rest), limitAllowed);
      BlockThenRest(cx, t', hs[1..], rest, false);
      OneThenAll(Seen(cx, t, h), SeenBlock(cx, t', hs[1..]), DecodeBlock(cx, t'', rest, false));
    }
  }

  lemma NothingThenAll(rest: seq<bool>, r: (Option<seq<Decoded>>, Table))
    ensures [] + rest == rest && PrependAll([], r) == r
  {
    if r.0.Some? {
      assert [] + r.0.value == r.0.value;
    }
  }

  lemma FieldThenRest(cx: Codec, t: Table, rem: seq<bool>, limitAllowed: bool)
    requires t.Valid() && ReadField(cx, t, rem, limitAllowed).Found?
    ensures var f := ReadField(cx, t, rem, limitAllowed);
            DecodeBlock(cx, t, rem, limitAllowed) == Prepend(f.h,
                DecodeBlock(cx, TableAfter(t, f.h, f.added), f.rest, false))
  {
    assert rem != [];
    hide ReadField, TableAfter, Prepend, Resize;
  }

  lemma OneThenAll(h: Decoded, hs: seq<Decoded>, r: (Option<seq<Decoded>>, Table))
    ensures Prepend(h, PrependAll(hs, r)) == PrependAll([h] + hs, r)
  {
    if r.0.Some? {
      ConcatAssoc([h], hs, r.0.value);
    }
  }

  /** A block decodes to what was encoded, and the tables of the two sides are equal afterwards. */
  lemma BlockRoundTrip(cx: Codec, t: Table, hs: seq<Header>)
    requires ValidCodec(cx) && t.Valid()
    ensures var (b, t') := EncodeBlock(cx, t, hs);
            DecodeBlock(cx, t, b, true) == (Some(SeenBlock(cx, t, hs)), t')
  {
    hide ValidCodec, EncodeBlock, SeenBlock;
    var b := EncodeBlock(cx, t, hs).0;
    BlockThenRest(cx, t, hs, [], true);
    assert b + [] == b && SeenBlock(cx, t, hs) + [] == SeenBlock(cx, t, hs);
  }

  lemma {:induction false} SeenAfter(cx: Codec, t: Table, hs: seq<Header>, k: nat)
    requires ValidCodec(cx) && t.Valid() && k < |hs|
    ensures SeenBlock(cx, t, hs)[k] == Seen(cx, EncodeBlock(cx, t, hs[..k]).1, LowerHeader(hs[k]))
    decreases k
  {
    hide ValidCodec, EncodeHeader, Seen, Added, TableAfter, LowerHeader, ReadField;
    var h := LowerHeader(hs[0]);
    FieldRoundTrip(cx, t, h, [], false);
    if k > 0 {
      SeenAfter(cx, EncodeHeader(cx, t, h).1, hs[1..], k - 1);
      assert hs[..k][1..] == hs[1..][..k - 1];
    }
  }

  /**
   * A peer sees every name with its ASCII capitals made small and every value unchanged; the mode is the one given,
   * unless the pair stands in one of the tables by then.
   */
  lemma WhatIsSeen(cx: Codec, t: Table, hs: seq<Header>, k: nat)
    requires ValidCodec(cx) && t.Valid() && k < |hs|
    ensures var h, d := hs[k], SeenBlock(cx, t, hs)[k];
            && |d.name| == |h.name| && d.value == Some(h.value)
            && (forall j :: 0 <= j < |h.name| ==>
                  d.name[j] == if 'A' as int <= h.name[j] <= 'Z' as int then h.name[j] + 32 else h.name[j])
            && var known := StaticEntry(d.name, Some(h.value)) in cx.st.rows
                            || Entry(d.name, h.value) in EncodeBlock(cx, t, hs[..k]).1.entries;
            d.mode == if known then YES else h.mode
  {
    hide ValidCodec, SeenBlock, EncodeBlock, FindPair;
    SeenAfter(cx, t, hs, k);
    IndexAgreement(cx, EncodeBlock(cx, t, hs[..k]).1, Lower(hs[k].name), hs[k].value);
  }

  /** Section 4.2 of RFC 7541: after a field a limit update is refused, at the start of a block it takes effect. */
  lemma LimitUpdateOnlyFirst(cx: Codec, t: Table, hs: seq<Header>, limit: nat)
    requires ValidCodec(cx) && t.Valid()
    ensures var (b, t') := EncodeBlock(cx, t, hs);
            DecodeBlock(cx, t, b + ([false, false, true] + IntBits(5, limit)), true) ==
            if hs == [] then (Some([]), Resize(t, limit)) else (None, t')
  {
    hide ValidCodec, EncodeHeader, Seen, IntBits, Whole, DecodeBlock, Resize;
    var u := [false, false, true] + IntBits(5, limit);
    WholeInt([false, false, true], 5, limit);
    BlockThenRest(cx, t, hs, u, true);
    LimitUpdate(cx, EncodeBlock(cx, t, hs).1, limit, hs == []);
    NothingThenAll(u, (Some([]), Resize(t, limit)));
  }

  /** The table, the bits and whether a limit update is allowed after n field representations. */
  function AfterFields(cx: Codec, t: Table, rem: seq<bool>, limitAllowed: bool,
      n: nat): (r: Option<(Table, seq<bool>, bool)>)
    requires t.Valid()
    ensures r.Some? ==> r.value.0.Valid()
    decreases n
  {
    if n == 0 then Some((t, rem, limitAllowed))
    else
      match ReadField(cx, t, rem, limitAllowed)
      case Bad => None
      case NewLimit(limit, rest) => AfterFields(cx, Resize(t, limit), rest, limitAllowed, n - 1)
      case Found(h, added, rest) => AfterFields(cx, TableAfter(t, h, added), rest, false, n - 1)
  }

  /** On any input, a limit update behind fields among which a header was is refused, whatever follows it. */
  lemma {:induction false} LimitUpdateBehindHeader(cx: Codec, t: Table, rem: seq<bool>, limitAllowed: bool, n: nat)
    requires t.Valid() && AfterFields(cx, t, rem, limitAllowed, n).Some?
    requires var (_, at, allowed) := AfterFields(cx, t, rem, limitAllowed, n).value;
             !allowed && |at| >= 3 && at[..3] == [false, false, true]
    ensures DecodeBlock(cx, t, rem, limitAllowed) == (None, AfterFields(cx, t, rem, limitAllowed, n).value.0)
    decreases n
  {
    hide ReadField, Resize, TableAfter;
    LimitUpdateIsBad(cx, t, rem);
    FieldNeedsBits(cx, t, rem, limitAllowed);
    if n > 0 {
      match ReadField(cx, t, rem, limitAllowed)
      case NewLimit(limit, rest) => LimitUpdateBehindHeader(cx, Resize(t, limit), rest, limitAllowed, n - 1);
      case Found(h, added, rest) => LimitUpdateBehindHeader(cx, TableAfter(t, h, added), rest, false, n - 1);
      case Bad =>
    }
  }

  lemma FieldNeedsBits(cx: Codec, t: Table, rem: seq<bool>, limitAllowed: bool)
    ensures rem == [] ==> ReadField(cx, t, rem, limitAllowed).Bad?
  {
  }

  lemma LimitUpdateIsBad(cx: Codec, t: Table, rem: seq<bool>)
    ensures |rem| >= 3 && rem[..3] == [false, false, true] ==> ReadField(cx, t, rem, false).Bad?
  {
    assert |rem| >= 3 ==> rem[0] == rem[..3][0] && rem[1] == rem[..3][1] && rem[2] == rem[..3][2];
  }

  lemma LimitUpdate(cx: Codec, t: Table, limit: nat, allowed: bool)
    requires t.Valid()
    ensures DecodeBlock(cx, t, [false, false, true] + IntBits(5, limit), allowed) ==
            if allowed then (Some([]), Resize(t, limit)) else (None, t)
  {
    hide IntBits, ReadInt, Resize;
    var u := [false, false, true] + IntBits(5, limit);
    ReadIntRoundTrip(5, limit, []);
    assert u[3..] == IntBits(5, limit) + [];
  }

  // ---------- sequences of blocks ----------

  function EncodeBlocks(cx: Codec, t: Table, blocks: seq<seq<Header>>): (r: (seq<seq<bool>>, Table))
    requires ValidCodec(cx) && t.Valid()
    ensures |r.0| == |blocks| && r.1.Valid()
    decreases |blocks|
  {
    if blocks == [] then ([], t)
    else
      var n := |blocks| - 1;
      var (bs, t') := EncodeBlocks(cx, t, blocks[..n]);
      var (b, t'') := EncodeBlock(cx, t', blocks[n]);
      (bs + [b], t'')
  }

  function DecodeBlocks(cx: Codec, t: Table, wire: seq<seq<bool>>): (r: (seq<Option<seq<Decoded>>>, Table))
    requires t.Valid()
    ensures |r.0| == |wire| && r.1.Valid()
    decreases |wire|
  {
    if wire == [] then ([], t)
    else
      var n := |wire| - 1;
      var (rs, t') := DecodeBlocks(cx, t, wire[..n]);
      var (r, t'') := DecodeBlock(cx, t', wire[n], true);
      (rs + [r], t'')
  }

  /** What the peer sees of the k-th block: it depends on the table left by the blocks before it. */
  function SeenAt(cx: Codec, t: Table, blocks: seq<seq<Header>>, k: nat): seq<Decoded>
    requires ValidCodec(cx) && t.Valid() && k < |blocks|
  {
    SeenBlock(cx, EncodeBlocks(cx, t, blocks[..k]).1, blocks[k])
  }

  /**
   * Encoder and decoder never lose step: however many blocks are sent, each decodes to what was
   * encoded, and after every one of them (take any initial part of `blocks`) the tables, their sizes
   * and their limits are equal.
   */
  lemma {:induction false} BlocksRoundTrip(cx: Codec, t: Table, blocks: seq<seq<Header>>)
    requires ValidCodec(cx) && t.Valid()
    ensures var (wire, t') := EncodeBlocks(cx, t, blocks);
            var (results, t'') := DecodeBlocks(cx, t, wire);
            && t'' == t'
            && forall k :: 0 <= k < |blocks| ==> results[k] == Some(SeenAt(cx, t, blocks, k))
    decreases |blocks|
  {
    hide ValidCodec, EncodeBlock, DecodeBlock, SeenBlock;
    if blocks != [] {
      var n := |blocks| - 1;
      BlocksRoundTrip(cx, t, blocks[..n]);
      var (bs, t') := EncodeBlocks(cx, t, blocks[..n]);
      BlockRoundTrip(cx, t', blocks[n]);
      var wire := EncodeBlocks(cx, t, blocks).0;
      assert wire[..n] == bs;
      forall k | 0 <= k < n
        ensures blocks[..n][..k] == blocks[..k]
      {
      }
    }
  }

  // ---------- the encoder's table ----------

  /** No pair is held twice, and none that the static table already has. */
  ghost predicate Distinct(st: Static, entries: seq<Entry>) {
    && (forall i, j :: 0 <= i < j < |entries| ==> entries[i] != entries[j])
    && (forall i :: 0 <= i < |entries| ==> StaticEntry(entries[i].name, Some(entries[i].value)) !in st.rows)
  }

  lemma EvictKeepsDistinct(st: Static, t: Table)
    requires t.Counted() && Distinct(st, t.entries)
    ensures Distinct(st, Evict(t).entries)
  {
    EvictKeepsLongestPrefix(t);
  }

  lemma HeaderKeepsDistinct(cx: Codec, t: Table, h: Header)
    requires ValidCodec(cx) && t.Valid() && Distinct(cx.st, t.entries)
    ensures Distinct(cx.st, EncodeHeader(cx, t, h).1.entries)
  {
    hide ValidCodec, FindPair, PairBits, IntBits, Evict;
    IndexAgreement(cx, t, h.name, h.value);
    if FindPair(cx, t, h.name, h.value).None? && h.mode == YES {
      var e := Entry(h.name, h.value);
      TotalSizeCons(e, t.entries);
      NewEntryIsDistinct(cx.st, t.entries, e);
      EvictKeepsDistinct(cx.st, Table([e] + t.entries, t.size + EntrySize(e), t.limit));
    }
  }

  lemma NewEntryIsDistinct(st: Static, entries: seq<Entry>, e: Entry)
    requires Distinct(st, entries) && e !in entries && StaticEntry(e.name, Some(e.value)) !in st.rows
    ensures Distinct(st, [e] + entries)
  {
  }

  lemma {:induction false} BlockKeepsDistinct(cx: Codec, t: Table, hs: seq<Header>)
    requires ValidCodec(cx) && t.Valid() && Distinct(cx.st, t.entries)
    ensures Distinct(cx.st, EncodeBlock(cx, t, hs).1.entries)
    decreases |hs|
  {
    hide ValidCodec, EncodeHeader, Distinct;
    if hs != [] {
      var h := LowerHeader(hs[0]);
      HeaderKeepsDistinct(cx, t, h);
      BlockKeepsDistinct(cx, EncodeHeader(cx, t, h).1, hs[1..]);
    }
  }

  /** On every run from an empty table the encoder never holds a duplicate or a static pair. */
  lemma {:induction false} EncoderTableIsDistinct(cx: Codec, limit: nat, blocks: seq<seq<Header>>)
    requires ValidCodec(cx)
    ensures Distinct(cx.st, EncodeBlocks(cx, Table([], 0, limit), blocks).1.entries)
    decreases |blocks|
  {
    hide ValidCodec, EncodeBlock;
    if blocks != [] {
      var n := |blocks| - 1;
      EncoderTableIsDistinct(cx, limit, blocks[..n]);
      BlockKeepsDistinct(cx, EncodeBlocks(cx, Table([], 0, limit), blocks[..n]).1, blocks[n]);
    }
  }

  // ---------- arbitrary input ----------

  /**
   * On any bytes at all decoding ends, with no more headers than bytes, and leaves a table whose
   * size is the sum of its entries and within its limit, whether or not the block was well formed.
   */
  lemma {:induction false} DecodeBounded(cx: Codec, t: Table, rem: seq<bool>, limitAllowed: bool)
    requires t.Valid() && Whole(rem)
    ensures var (hs, t') := DecodeBlock(cx, t, rem, limitAllowed);
            t'.Valid() && (hs.Some? ==> 8 * |hs.value| <= |rem|)
    decreases |rem|
  {
    hide ReadField, TableAfter, Resize;
    if rem != [] {
      match ReadField(cx, t, rem, limitAllowed)
      case Bad =>
      case NewLimit(limit, rest) =>
        DecodeBounded(cx, Resize(t, limit), rest, limitAllowed);
      case Found(h, added, rest) =>
        DecodeBounded(cx, TableAfter(t, h, added), rest, false);
    }
  }
}
