/** The bytes of Appendix C of RFC 7541, with any tree for Huffman codes. */
module HpackExamples {
  import opened Bits
  import opened HpackInt
  import opened DynamicTable
  import opened StaticTable
  import opened Hpack
  import opened HpackFormat

  // ---------- integers (section C.1) ----------

  lemma SmallInt(n: nat, i: nat)
    requires 1 <= n <= 8 && i < Pow2(n) - 1
    ensures IntBits(n, i) == ToBits(i, n)
  {
  }

  lemma Small()
    ensures IntBits(5, 10) == [false, true, false, true, false]
    ensures IntBits(8, 42) == BytesBits([42])
  {
    hide IntBits, BytesBits;
    Pow2Values();
    SmallInt(5, 10);
    SmallInt(8, 42);
    BytesBitsSingleton(42);
  }

  lemma Large()
    ensures IntBits(5, 1337) == [true, true, true, true, true] + BytesBits([154, 10])
  {
    hide BytesBits;
    Pow2Values();
    assert Tail(1306) == [154] + Tail(10);
    assert Tail(1306) == [154, 10];
  }

  // ---------- representations as bytes ----------

  lemma TextBytes(cx: Codec, s: bytes)
    requires ValidCodec(cx) && |s| < 127
    ensures TextBits(cx, Text(s, false)) == BytesBits([|s|] + s)
  {
    hide BytesBits, IntBits, TextBits, ValidCodec, ToBits, Pow2;
    LengthByte(|s|);
    PlainFormat(cx, s);
    BytesBitsCons(|s|, s);
  }

  lemma LengthByte(n: nat)
    requires n < 127
    ensures [false] + IntBits(7, n) == ToBits(n, 8)
  {
    hide IntBits;
    Pow2Values();
    SmallInt(7, n);
    TopBits([false], 0, n, 7);
  }

  lemma TopBits(top: seq<bool>, v: nat, i: nat, n: nat)
    requires top == ToBits(v, |top|) && i < Pow2(n)
    ensures top + ToBits(i, n) == ToBits(v * Pow2(n) + i, |top| + n)
  {
    var k := |top| + n;
    var w := v * Pow2(n) + i;
    ToBitsSplit(w, k, n);
    QuotientUnique(w, Pow2(n), v, i);
    assert ToBits(w, k) == ToBits(w, k)[..k - n] + ToBits(w, k)[k - n..];
  }

  lemma FirstByte(top: seq<bool>, v: nat, i: nat, n: nat, more: bytes)
    requires top == ToBits(v, |top|) && 1 <= n <= 7 && |top| + n == 8 && i < Pow2(n) - 1
    requires 0 <= v * Pow2(n) + i < 256
    ensures BytesBits([v * Pow2(n) + i] + more) == top + (IntBits(n, i) + BytesBits(more))
    ensures Whole(BytesBits(more))
  {
    hide BytesBits, IntBits, ToBits, Pow2;
    SmallInt(n, i);
    TopBits(top, v, i, n);
    BytesBitsCons(v * Pow2(n) + i, more);
    ConcatAssoc(top, ToBits(i, n), BytesBits(more));
  }

  lemma PairStep(cx: Codec, t: Table, i: nat, more: bytes, limitAllowed: bool)
    requires t.Valid() && i < 127 && PairAt(cx.st, t, i).Some?
    ensures var e := PairAt(cx.st, t, i).value;
            DecodeBlock(cx, t, BytesBits([128 + i] + more), limitAllowed) ==
            Prepend(Decoded(e.name, e.value, YES), DecodeBlock(cx, t, BytesBits(more), false))
  {
    hide BytesBits, IntBits, DecodeBlock, Prepend, PairAt, Whole;
    Pow2Values();
    FirstByte([true], 1, i, 7, more);
    ConcatAssoc([true], IntBits(7, i), BytesBits(more));
    IndexedField(cx, t, i, BytesBits(more), limitAllowed);
    PairMeaning(cx.st, t, i);
  }

  /** A literal with indexing whose name is that of a pair in the tables. */
  lemma ListedStep(cx: Codec, t: Table, i: nat, s: bytes, more: bytes, limitAllowed: bool)
    requires ValidCodec(cx) && t.Valid() && 1 <= i < 63 && PairAt(cx.st, t, i).Some? && |s| < 127
    ensures var name := PairAt(cx.st, t, i).value.name;
            DecodeBlock(cx, t, BytesBits([64 + i] + ([|s|] + s + more)), limitAllowed) ==
            Prepend(Decoded(name, Some(s), YES), DecodeBlock(cx, Add(t, Entry(name, s)), BytesBits(more), false))
  {
    hide BytesBits, IntBits, DecodeBlock, Prepend, PairAt, Whole, TextBits, ValidCodec, Add;
    Pow2Values();
    var value, rest := Text(s, false), BytesBits(more);
    FirstByte([false, true], 1, i, 6, [|s|] + s + more);
    TextBytes(cx, s);
    BytesBitsConcat([|s|] + s, more);
    assert [false, true] + (IntBits(6, i) + (TextBits(cx, value) + rest)) ==
           [false, true] + (IntBits(6, i) + TextBits(cx, value)) + rest;
    FirstByte([false, true], 1, i, 6, more);
    LiteralField(cx, t, YES, Indexed(i), value, rest, limitAllowed);
  }

  /** A literal with indexing whose name is spelled out. */
  lemma SpelledStep(cx: Codec, t: Table, k: bytes, s: bytes, more: bytes, limitAllowed: bool)
    requires ValidCodec(cx) && t.Valid() && |k| < 127 && |s| < 127
    ensures DecodeBlock(cx, t, BytesBits([64] + ([|k|] + k + ([|s|] + s + more))), limitAllowed) ==
            Prepend(Decoded(k, Some(s), YES), DecodeBlock(cx, Add(t, Entry(k, s)), BytesBits(more), false))
  {
    hide BytesBits, IntBits, DecodeBlock, Prepend, PairAt, Whole, TextBits, ValidCodec, Add;
    Pow2Values();
    var name, value, rest := Text(k, false), Text(s, false), BytesBits(more);
    FirstByte([false, true], 1, 0, 6, [|k|] + k + ([|s|] + s + more));
    TextBytes(cx, k);
    TextBytes(cx, s);
    BytesBitsConcat([|k|] + k, [|s|] + s + more);
    BytesBitsConcat([|s|] + s, more);
    var i, x, v := IntBits(6, 0), TextBits(cx, name), TextBits(cx, value);
    assert [false, true] + (i + (x + (v + rest))) == [false, true] + (i + x + v) + rest;
    FirstByte([false, true], 1, 0, 6, more);
    LiteralField(cx, t, YES, Spelled(name), value, rest, limitAllowed);
  }

  lemma NothingLeft(cx: Codec, t: Table, limitAllowed: bool)
    requires t.Valid()
    ensures DecodeBlock(cx, t, BytesBits([]), limitAllowed) == (Some([]), t)
  {
  }

  /** An entry that fits leaves the others where they are. */
  lemma Fits(t: Table, e: Entry)
    requires t.Valid() && t.size + |e.name| + |e.value| + 32 <= t.limit
    ensures Add(t, e) == Table([e] + t.entries, t.size + |e.name| + |e.value| + 32, t.limit)
  {
    TotalSizeCons(e, t.entries);
  }

  // ---------- three requests on one connection (section C.3) ----------

  function AsDecoded(name: string, value: string): Decoded {
    Decoded(Ascii(name), Some(Ascii(value)), YES)
  }

  const AUTHORITY := Entry(Ascii(":authority"), Ascii("www.example.com"))
  const CACHE := Entry(Ascii("cache-control"), Ascii("no-cache"))
  const CUSTOM := Entry(Ascii("custom-key"), Ascii("custom-value"))

  /** The tables behind the first and the second request. */
  const ONE := Table([AUTHORITY], 57, 4096)
  const TWO := Table([CACHE, AUTHORITY], 110, 4096)

  lemma Tables()
    ensures ONE.Valid() && TWO.Valid()
  {
    hide Ascii;
    TotalSizeCons(AUTHORITY, []);
    TotalSizeCons(CACHE, [AUTHORITY]);
    assert [AUTHORITY] + [] == [AUTHORITY] && [CACHE] + [AUTHORITY] == [CACHE, AUTHORITY];
  }

  lemma PseudoLines()
    ensures |PSEUDO_ROWS| == 14
    ensures PSEUDO_ROWS[0] == NameOnly(":authority")
    ensures PSEUDO_ROWS[1] == StaticTable.Pair(":method", "GET")
    ensures PSEUDO_ROWS[3] == StaticTable.Pair(":path", "/")
    ensures PSEUDO_ROWS[4] == StaticTable.Pair(":path", "/index.html")
    ensures PSEUDO_ROWS[5] == StaticTable.Pair(":scheme", "http")
    ensures PSEUDO_ROWS[6] == StaticTable.Pair(":scheme", "https")
  {
    hide Ascii, NameOnly, StaticTable.Pair;
  }

  lemma FieldLines()
    ensures |FIELD_ROWS| == 47 && FIELD_ROWS[9] == NameOnly("cache-control")
  {
    hide Ascii, NameOnly, StaticTable.Pair;
  }

  lemma FirstLines()
    ensures |STATIC_ROWS| == 61
    ensures STATIC_ROWS[0] == NameOnly(":authority")
    ensures STATIC_ROWS[1] == StaticTable.Pair(":method", "GET")
    ensures STATIC_ROWS[3] == StaticTable.Pair(":path", "/")
    ensures STATIC_ROWS[4] == StaticTable.Pair(":path", "/index.html")
    ensures STATIC_ROWS[5] == StaticTable.Pair(":scheme", "http")
    ensures STATIC_ROWS[6] == StaticTable.Pair(":scheme", "https")
    ensures STATIC_ROWS[23] == NameOnly("cache-control")
  {
    hide Ascii, NameOnly, StaticTable.Pair, PSEUDO_ROWS, FIELD_ROWS;
    PseudoLines();
    FieldLines();
  }

  lemma Together(a: Decoded, b: Decoded, c: Decoded, d: Decoded, t: Table)
    ensures Prepend(a, Prepend(b, Prepend(c, Prepend(d, (Some([]), t))))) == (Some([a, b, c, d]), t)
    ensures forall e :: Prepend(e, (Some([a, b, c, d]), t)) == (Some([e, a, b, c, d]), t)
  {
    assert [d] + [] == [d] && [c] + [d] == [c, d] && [b] + [c, d] == [b, c, d] && [a] + [b, c, d] == [a, b, c, d];
    assert forall e :: [e] + [a, b, c, d] == [e, a, b, c, d];
  }

  lemma FirstRequest(cx: Codec)
    requires ValidCodec(cx) && cx.st.rows == STATIC_ROWS
    ensures DecodeBlock(cx, Table([], 0, 4096), BytesBits([130, 134, 132, 65, 15] + Ascii("www.example.com")), true) ==
            (Some([AsDecoded(":method", "GET"), AsDecoded(":scheme", "http"), AsDecoded(":path", "/"),
                   AsDecoded(":authority", "www.example.com")]), ONE)
  {
    hide BytesBits, DecodeBlock, PairAt, ValidCodec, Add, Ascii, Prepend, STATIC_ROWS;
    var t := Table([], 0, 4096);
    var s := Ascii("www.example.com");
    FirstLines();
    var b3 := [65] + ([15] + s + []);
    PairStep(cx, t, 2, [134] + ([132] + b3), true);
    PairStep(cx, t, 6, [132] + b3, false);
    PairStep(cx, t, 4, b3, false);
    ListedStep(cx, t, 1, s, [], false);
    Fits(t, AUTHORITY);
    NothingLeft(cx, Add(t, AUTHORITY), false);
    assert [130] + ([134] + ([132] + b3)) == [130, 134, 132, 65, 15] + s;
    assert [AUTHORITY] + [] == [AUTHORITY];
    Together(AsDecoded(":method", "GET"), AsDecoded(":scheme", "http"), AsDecoded(":path", "/"),
      AsDecoded(":authority", "www.example.com"), ONE);
  }

  /** The authority is now at index 62, in front of what the first request left. */
  lemma SecondRequest(cx: Codec)
    requires ValidCodec(cx) && cx.st.rows == STATIC_ROWS
    ensures ONE.Valid()
    ensures DecodeBlock(cx, ONE, BytesBits([130, 134, 132, 190, 88, 8] + Ascii("no-cache")), true) ==
            (Some([AsDecoded(":method", "GET"), AsDecoded(":scheme", "http"), AsDecoded(":path", "/"),
                   AsDecoded(":authority", "www.example.com"), AsDecoded("cache-control", "no-cache")]), TWO)
  {
    hide BytesBits, DecodeBlock, PairAt, ValidCodec, Add, Ascii, Prepend, STATIC_ROWS;
    var t := ONE;
    Tables();
    var s := Ascii("no-cache");
    FirstLines();
    PairMeaning(cx.st, t, 62);
    var b4 := [88] + ([8] + s + []);
    PairStep(cx, t, 2, [134] + ([132] + ([190] + b4)), true);
    PairStep(cx, t, 6, [132] + ([190] + b4), false);
    PairStep(cx, t, 4, [190] + b4, false);
    PairStep(cx, t, 62, b4, false);
    ListedStep(cx, t, 24, s, [], false);
    Fits(t, CACHE);
    NothingLeft(cx, Add(t, CACHE), false);
    assert [130] + ([134] + ([132] + ([190] + b4))) == [130, 134, 132, 190, 88, 8] + s;
    assert [CACHE] + [AUTHORITY] == [CACHE, AUTHORITY];
    Together(AsDecoded(":scheme", "http"), AsDecoded(":path", "/"), AsDecoded(":authority", "www.example.com"),
      AsDecoded("cache-control", "no-cache"), TWO);
  }

  /** One insertion later it is at index 63. */
  lemma ThirdRequest(cx: Codec)
    requires ValidCodec(cx) && cx.st.rows == STATIC_ROWS
    ensures TWO.Valid()
    ensures var block := [130, 135, 133, 191, 64, 10] + Ascii("custom-key") + [12] + Ascii("custom-value");
            DecodeBlock(cx, TWO, BytesBits(block), true) ==
            (Some([AsDecoded(":method", "GET"), AsDecoded(":scheme", "https"), AsDecoded(":path", "/index.html"),
                   AsDecoded(":authority", "www.example.com"), AsDecoded("custom-key", "custom-value")]),
             Table([CUSTOM, CACHE, AUTHORITY], 164, 4096))
  {
    hide BytesBits, DecodeBlock, PairAt, ValidCodec, Add, Ascii, Prepend, STATIC_ROWS;
    var t := TWO;
    Tables();
    var k, s := Ascii("custom-key"), Ascii("custom-value");
    FirstLines();
    PairMeaning(cx.st, t, 63);
    var b4 := [64] + ([10] + k + ([12] + s + []));
    PairStep(cx, t, 2, [135] + ([133] + ([191] + b4)), true);
    PairStep(cx, t, 7, [133] + ([191] + b4), false);
    PairStep(cx, t, 5, [191] + b4, false);
    PairStep(cx, t, 63, b4, false);
    SpelledStep(cx, t, k, s, [], false);
    Fits(t, CUSTOM);
    NothingLeft(cx, Add(t, CUSTOM), false);
    assert [130] + ([135] + ([133] + ([191] + b4))) == [130, 135, 133, 191, 64, 10] + k + [12] + s;
    assert [CUSTOM] + [CACHE, AUTHORITY] == [CUSTOM, CACHE, AUTHORITY];
    Together(AsDecoded(":scheme", "https"), AsDecoded(":path", "/index.html"),
      AsDecoded(":authority", "www.example.com"), AsDecoded("custom-key", "custom-value"),
      Table([CUSTOM, CACHE, AUTHORITY], 164, 4096));
  }

  /** A literal named by an entry of the same block: index 62 is the pair just inserted. */
  lemma NameJustInserted(cx: Codec)
    requires ValidCodec(cx) && cx.st.rows == STATIC_ROWS
    ensures DecodeBlock(cx, Table([], 0, 4096), BytesBits([64, 1, 120, 1, 49, 126, 1, 50]), true) ==
            (Some([Decoded([120], Some([49]), YES), Decoded([120], Some([50]), YES)]),
             Table([Entry([120], [50]), Entry([120], [49])], 68, 4096))
  {
    hide BytesBits, DecodeBlock, PairAt, ValidCodec, Add, Prepend, STATIC_ROWS;
    var t0 := Table([], 0, 4096);
    FirstLines();
    var e1, e2 := Entry([120], [49]), Entry([120], [50]);
    Fits(t0, e1);
    assert [e1] + [] == [e1];
    var t1 := Table([e1], 34, 4096);
    PairMeaning(cx.st, t1, 62);
    var b1 := [126] + ([1] + [50] + []);
    SpelledStep(cx, t0, [120], [49], b1, true);
    ListedStep(cx, t1, 62, [50], [], false);
    Fits(t1, e2);
    assert [e2] + [e1] == [e2, e1];
    NothingLeft(cx, Add(t1, e2), false);
    assert [64] + ([1] + [120] + ([1] + [49] + b1)) == [64, 1, 120, 1, 49, 126, 1, 50];
    TwoTogether(Decoded([120], Some([49]), YES), Decoded([120], Some([50]), YES), Table([e2, e1], 68, 4096));
  }

  lemma TwoTogether(a: Decoded, b: Decoded, t: Table)
    ensures Prepend(a, Prepend(b, (Some([]), t))) == (Some([a, b]), t)
  {
    assert [b] + [] == [b] && [a] + [b] == [a, b];
  }
}
