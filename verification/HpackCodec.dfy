/** HpackEncoder and HpackDecoder (tornado_http2/hpack.py). */
module HpackCodec {
  import opened Bits
  import opened HpackInt
  import opened Huffman
  import opened HuffmanTree
  import opened Encoding
  import opened DynamicTable
  import opened StaticTable
  import opened Hpack

  /** Python values, as far as `==` between a tuple and a byte string is concerned. */
  datatype PyValue = Bytes(b: bytes) | Tuple(name: bytes, value: bytes)

  lemma FreeAfter(n: nat, k: nat)
    requires n % 8 == 0 && 0 < k < 8
    ensures 8 - (n + k) % 8 == 8 - k
  {
  }

  class HpackEncoder {
    const st: Static
    const code: CodeMap
    const huffman: bool
    const table: Dynamic
    ghost const cx: Codec

    ghost predicate Constants() {
      ValidCodec(cx) && cx.st == st && cx.code == code && cx.huffman == huffman
    }

    ghost predicate Valid()
      reads this, table
    {
      Constants() && table.View().Valid()
    }

    constructor (ghost cx: Codec, st: Static, code: CodeMap, huffman: bool, limit: nat)
      requires ValidCodec(cx) && cx.st == st && cx.code == code && cx.huffman == huffman
      ensures Valid() && this.cx == cx
      ensures fresh(table) && table.View() == Table([], 0, limit)
    {
      this.cx := cx;
      this.st := st;
      this.code := code;
      this.huffman := huffman;
      table := new Dynamic(limit);
    }

    method FindPairIndex(name: bytes, value: bytes) returns (r: Option<nat>)
      requires Constants()
      ensures r == FindPair(cx, table.View(), name, value)
    {
      var p := StaticEntry(name, Some(value));
      if p in st.pairs {
        return Some(st.pairs[p]);
      }
      var i := 0;
      while i < |table.entries|
        invariant 0 <= i <= |table.entries|
        invariant forall j :: 0 <= j < i ==> table.entries[j] != Entry(name, value)
      {
        if table.entries[i] == Entry(name, value) {
          assert IndexOf(table.entries, Entry(name, value)) == Some(i);
          return Some(i + st.Length());
        }
        i := i + 1;
      }
      return None;
    }

    /** The scan of the dynamic table compares pairs with a name, so it never succeeds. */
    method FindKeyIndex(key: bytes) returns (r: Option<nat>)
      requires Constants()
      ensures r == FindKey(cx, key)
    {
      if key in st.keys {
        return Some(st.keys[key]);
      }
      var i := 0;
      while i < |table.entries|
        invariant 0 <= i <= |table.entries|
      {
        var k := Tuple(table.entries[i].name, table.entries[i].value);
        var hit: Option<nat> := Some(i + st.Length());
        if k == Bytes(key) {
          return hit;
        }
        i := i + 1;
      }
      return None;
    }

    method WriteString(enc: BitEncoder, s: bytes)
      requires Constants() && enc.Valid() && enc.bitOffset == 8
      modifies enc
      ensures enc.Valid() && enc.bitOffset == 8
      ensures enc.Bits() == old(enc.Bits()) + StringBits(cx, s)
    {
      hide IntBits, BytesBits, HuffmanBits, Written, Payload, ValidCodec;
      ghost var before := enc.Bits();
      var payload := EncodePayload(s);
      FreeAfter(|before|, 1);
      enc.WriteBit(huffman);
      enc.WriteHpackInt(|payload|);
      enc.WriteString(payload);
      ConcatAssoc(before, [cx.huffman], IntBits(7, |payload|));
      ConcatAssoc(before, [cx.huffman] + IntBits(7, |payload|), Payload(cx, s));
    }

    method EncodePayload(s: bytes) returns (payload: bytes)
      requires Constants()
      ensures BytesBits(payload) == Payload(cx, s)
    {
      hide BytesBits, HuffmanBits, Written;
      payload := s;
      if huffman {
        var inner := new BitEncoder();
        inner.WriteHuffmanString(code, s);
        payload := inner.Data();
        assert [] + HuffmanBits(cx.code, s) == HuffmanBits(cx.code, s);
      }
    }

    method WriteHeader(enc: BitEncoder, h: Header)
      requires Valid() && enc.Valid() && enc.bitOffset == 8
      modifies enc, table
      ensures enc.Valid() && enc.bitOffset == 8
      ensures enc.Bits() == old(enc.Bits()) + EncodeHeader(cx, old(table.View()), h).0
      ensures Valid() && table.View() == EncodeHeader(cx, old(table.View()), h).1
    {
      hide IntBits, StringBits, BytesBits, FindPair, FindKey, Written;
      ghost var before := enc.Bits();
      FreeAfter(|before|, 1);
      FreeAfter(|before|, 2);
      FreeAfter(|before|, 4);
      var idx := FindPairIndex(h.name, h.value);
      if idx.Some? {
        enc.WriteBit(true);
        enc.WriteHpackInt(idx.value);
        ConcatAssoc(before, [true], IntBits(7, idx.value));
        return;
      }
      ghost var prefix := if h.mode == YES then [false, true] else [false, false, false, h.mode == NEVER];
      ghost var n := 8 - |prefix|;
      if h.mode == YES {
        table.AddToDynamicTable(h.name, h.value);
        enc.WriteBits([false, true]);
      } else if h.mode == NEVER {
        enc.WriteBits([false, false, false, true]);
      } else {
        enc.WriteBits([false, false, false, false]);
      }
      assert enc.Free() == n;
      WritePair(enc, n, h.name, h.value);
      ConcatAssoc(before, prefix, PairBits(cx, n, h.name, h.value));
    }

    /** The name, by index or literally, and the value. */
    method WritePair(enc: BitEncoder, ghost n: nat, name: bytes, value: bytes)
      requires Constants() && enc.Valid() && enc.Free() == n
      modifies enc
      ensures enc.Valid() && enc.bitOffset == 8
      ensures enc.Bits() == old(enc.Bits()) + PairBits(cx, n, name, value)
    {
      hide IntBits, StringBits, BytesBits, FindKey, Written;
      ghost var before := enc.Bits();
      var idx := FindKeyIndex(name);
      if idx.Some? {
        enc.WriteHpackInt(idx.value);
        ConcatAssoc(before, IntBits(n, idx.value), StringBits(cx, value));
      } else {
        enc.WriteHpackInt(0);
        WriteString(enc, name);
        ConcatAssoc(before, IntBits(n, 0), StringBits(cx, name));
        ConcatAssoc(before, IntBits(n, 0) + StringBits(cx, name), StringBits(cx, value));
      }
      WriteString(enc, value);
    }

    method Encode(headerList: seq<Header>) returns (data: bytes)
      requires Valid()
      modifies table
      ensures BytesBits(data) == EncodeBlock(cx, old(table.View()), headerList).0
      ensures Valid() && table.View() == EncodeBlock(cx, old(table.View()), headerList).1
    {
      hide EncodeHeader, BytesBits, Written, ValidCodec;
      var enc := new BitEncoder();
      ghost var t := table.View();
      assert headerList[0..] == headerList;
      assert [] + EncodeBlock(cx, t, headerList).0 == EncodeBlock(cx, t, headerList).0;
      var i := 0;
      while i < |headerList|
        invariant 0 <= i <= |headerList|
        invariant fresh(enc) && enc.Valid() && enc.bitOffset == 8 && table.View().Valid()
        invariant (enc.Bits() + EncodeBlock(cx, table.View(), headerList[i..]).0,
                   EncodeBlock(cx, table.View(), headerList[i..]).1) == EncodeBlock(cx, t, headerList)
      {
        assert headerList[i..][0] == headerList[i] && headerList[i..][1..] == headerList[i + 1..];
        ghost var before, ti := enc.Bits(), table.View();
        WriteHeader(enc, LowerHeader(headerList[i]));
        ConcatAssoc(before, EncodeHeader(cx, ti, LowerHeader(headerList[i])).0,
                    EncodeBlock(cx, table.View(), headerList[i + 1..]).0);
        i := i + 1;
      }
      assert headerList[i..] == [] && enc.Bits() + [] == enc.Bits();
      data := enc.Data();
    }
  }

  /** What one turn of the decode loop reads; Failed stands for any exception. */
  datatype FieldRead = Failed | HeaderRead(h: Decoded, added: bool) | LimitUpdate(limit: nat)

  class HpackDecoder {
    const st: Static
    const tree: Tree
    const table: Dynamic
    ghost const cx: Codec

    /** The lookups a decode makes in the tree never change its leaves. */
    ghost predicate Valid()
      reads this, tree, table
    {
      ValidCodec(cx) && cx.st == st && tree.Valid() && tree.Leaves() == cx.leaves && table.View().Valid()
    }

    constructor (ghost cx: Codec, st: Static, tree: Tree, limit: nat)
      requires ValidCodec(cx) && cx.st == st && tree.Valid() && tree.Leaves() == cx.leaves
      ensures Valid() && this.cx == cx && this.st == st && this.tree == tree
      ensures fresh(table) && table.View() == Table([], 0, limit)
    {
      this.cx := cx;
      this.st := st;
      this.tree := tree;
      table := new Dynamic(limit);
    }

    method FromIndex(idx: nat) returns (r: Option<StaticEntry>)
      requires cx.st == st
      ensures r == ReadFromIndex(cx, table.View(), idx)
    {
      if idx < st.Length() {
        return if idx == 0 then None else Some(st.rows[idx - 1]);
      }
      var i := idx - st.Length();
      if i < |table.entries| {
        return Some(StaticEntry(table.entries[i].name, Some(table.entries[i].value)));
      }
      return None;
    }

    method String(dec: BitDecoder) returns (r: Option<bytes>)
      requires Valid() && dec.Valid()
      modifies dec, tree
      ensures Valid() && dec.Valid() && table.View() == old(table.View())
      ensures r.Some? <==> ReadString(cx, old(dec.Rem())).Some?
      ensures r.Some? ==> ReadString(cx, old(dec.Rem())) == Some((r.value, dec.Rem()))
    {
      hide ReadInt, ReadChars, Unread, ValidCodec;
      ghost var rem := dec.Rem();
      var huffman := dec.ReadBit();
      if huffman.None? {
        return None;
      }
      assert rem[0] == huffman.value && rem[1..] == dec.Rem();
      var length := dec.ReadHpackInt();
      if length.None? {
        return None;
      }
      if huffman.value {
        r := HuffmanChars(dec, length.value);
      } else {
        r := PlainChars(dec, length.value);
      }
    }

    method HuffmanChars(dec: BitDecoder, length: nat) returns (r: Option<bytes>)
      requires Valid() && dec.Valid() && dec.bitOffset == 0
      modifies dec, tree
      ensures Valid() && dec.Valid() && table.View() == old(table.View())
      ensures r.Some? <==> ReadChars(cx.leaves, old(dec.Rem()), |old(dec.Rem())| - 8 * length).Some?
      ensures r.Some? ==> ReadChars(cx.leaves, old(dec.Rem()),
              |old(dec.Rem())| - 8 * length) == Some((r.value, dec.Rem()))
    {
      hide ReadChar, Unread, ValidCodec;
      var destByte := dec.byteOffset + length;
      var chars: bytes := [];
      ghost var rem, stop := dec.Rem(), |dec.Rem()| - 8 * length;
      assert stop == 8 * (|dec.data| - destByte);
      ContinueStart(cx, rem, stop);
      while dec.byteOffset < destByte
        invariant Valid() && dec.Valid() && table.View() == old(table.View())
        invariant Continues(cx, rem, dec.Rem(), stop, chars)
        decreases |dec.Rem()|
      {
        ghost var at := dec.Rem();
        assert |at| > stop;
        var next := dec.ReadHuffmanChar(tree, destByte);
        ContinueStep(cx, rem, at, stop, chars);
        if next.None? {
          return None;
        }
        if next.value.None? {
          return Some(chars);
        }
        chars := chars + [next.value.value];
      }
      assert |dec.Rem()| <= stop;
      assert chars + [] == chars;
      return Some(chars);
    }

    method PlainChars(dec: BitDecoder, length: nat) returns (r: Option<bytes>)
      requires Valid() && dec.Valid() && dec.bitOffset == 0
      modifies dec
      ensures Valid() && dec.Valid() && table.View() == old(table.View())
      ensures r.Some? <==> |old(dec.Rem())| >= 8 * length
      ensures r.Some? ==> r.value == BitsBytes(old(dec.Rem())[..8 * length])
      ensures r.Some? ==> dec.Rem() == old(dec.Rem())[8 * length..]
    {
      hide Unread, ValidCodec;
      var chars: bytes := [];
      ghost var rem := dec.Rem();
      var i := 0;
      while i < length
        invariant 0 <= i <= length && |chars| == i
        invariant Valid() && dec.Valid() && dec.bitOffset == 0 && table.View() == old(table.View())
        invariant rem == BytesBits(chars) + dec.Rem()
      {
        var ch := dec.ReadChar8();
        if ch.None? {
          return None;
        }
        BytesBitsConcat(chars, [ch.value]);
        BytesBitsSingleton(ch.value);
        ConcatAssoc(BytesBits(chars), ToBits(ch.value, 8), dec.Rem());
        chars := chars + [ch.value];
        i := i + 1;
      }
      BytesBitsBytes(chars);
      TakeDrop(BytesBits(chars), dec.Rem());
      return Some(chars);
    }

    method NameValuePair(dec: BitDecoder) returns (r: Option<(bytes, bytes)>)
      requires Valid() && dec.Valid()
      modifies dec, tree
      ensures Valid() && dec.Valid() && table.View() == old(table.View())
      ensures r.Some? <==> ReadPair(cx, table.View(), old(dec.Rem())).Some?
      ensures r.Some? ==> ReadPair(cx, table.View(), old(dec.Rem())) == Some((r.value, dec.Rem()))
    {
      hide ReadInt, ReadString, ReadFromIndex, Unread, ValidCodec;
      var nameIndex := dec.ReadHpackInt();
      if nameIndex.None? {
        return None;
      }
      var name;
      if nameIndex.value == 0 {
        var s := String(dec);
        if s.None? {
          return None;
        }
        name := s.value;
      } else {
        var e := FromIndex(nameIndex.value);
        if e.None? {
          return None;
        }
        name := e.value.name;
      }
      var value := String(dec);
      if value.None? {
        return None;
      }
      return Some((name, value.value));
    }

    /** None stands for HpackError. Fields before the error have already changed the table. */
    method Decode(data: bytes) returns (r: Option<seq<Decoded>>)
      requires Valid()
      modifies table, tree
      ensures Valid()
      ensures (r, table.View()) == DecodeBlock(cx, old(table.View()), BytesBits(data), true)
    {
      hide ReadField, Resize, TableAfter, Unread, ValidCodec;
      var dec := new BitDecoder(data);
      var headerList: seq<Decoded> := [];
      var limitUpdateAllowed := true;
      ghost var start := DecodeBlock(cx, table.View(), dec.Rem(), true);
      NothingThenAll([], start);
      while !dec.Eod()
        invariant fresh(dec) && dec.Valid() && Valid()
        invariant start == PrependAll(headerList, DecodeBlock(cx, table.View(), dec.Rem(), limitUpdateAllowed))
        decreases |dec.Rem()|
      {
        ghost var t, at := table.View(), dec.Rem();
        var f := NextField(dec, limitUpdateAllowed);
        match f
        case Failed =>
          return None;
        case LimitUpdate(limit) =>
          table.SetLimit(limit);
        case HeaderRead(h, added) =>
          PrependMore(headerList, h, DecodeBlock(cx, TableAfter(t, h, added), dec.Rem(), false));
          headerList := headerList + [h];
          StoreIfAdded(h, added);
          limitUpdateAllowed := false;
      }
      assert headerList + [] == headerList;
      return Some(headerList);
    }

    method StoreIfAdded(h: Decoded, added: bool)
      requires Valid() && (added ==> h.value.Some?)
      modifies table
      ensures Valid() && table.View() == TableAfter(old(table.View()), h, added)
    {
      if added {
        table.AddToDynamicTable(h.name, h.value.value);
      }
    }

    /** A header with a literal value, whose leading bits have been read. */
    method LiteralField(dec: BitDecoder, mode: Mode, added: bool) returns (f: FieldRead)
      requires Valid() && dec.Valid()
      modifies dec, tree
      ensures Valid() && dec.Valid() && table.View() == old(table.View())
      ensures match ReadPair(cx, table.View(), old(dec.Rem()))
              case None => f == Failed
              case Some(((name, value), rest)) =>
                f == HeaderRead(Decoded(name, Some(value), mode), added) && dec.Rem() == rest
    {
      hide ReadPair, Unread, ValidCodec;
      var pair := NameValuePair(dec);
      return if pair.None? then Failed else HeaderRead(Decoded(pair.value.0, Some(pair.value.1), mode), added);
    }

    /** One turn of the decode loop, up to the change it makes to the table. */
    method NextField(dec: BitDecoder, limitUpdateAllowed: bool) returns (f: FieldRead)
      requires Valid() && dec.Valid()
      modifies dec, tree
      ensures Valid() && dec.Valid() && table.View() == old(table.View())
      ensures Answers(ReadField(cx, table.View(), old(dec.Rem()), limitUpdateAllowed), f, dec.Rem())
    {
      hide ReadInt, ReadPair, ReadFromIndex, Unread, ValidCodec;
      ghost var rem := dec.Rem();
      var isIndexed := dec.ReadBit();
      if isIndexed.None? {
        return Failed;
      }
      assert rem[1..] == dec.Rem();
      if isIndexed.value {
        var idx := dec.ReadHpackInt();
        if idx.None? {
          return Failed;
        }
        var e := FromIndex(idx.value);
        return if e.None? then Failed else HeaderRead(Decoded(e.value.name, e.value.value, YES), false);
      }
      var addToIndex := dec.ReadBit();
      if addToIndex.None? {
        return Failed;
      }
      assert rem[2..] == dec.Rem();
      if addToIndex.value {
        f := LiteralField(dec, YES, true);
      } else {
        f := UnindexedField(dec, limitUpdateAllowed, rem);
      }
    }

    /** The turn after two bits that are not set: a limit update, or a header that is not to be indexed. */
    method UnindexedField(dec: BitDecoder, limitUpdateAllowed: bool, ghost rem: seq<bool>) returns (f: FieldRead)
      requires Valid() && dec.Valid() && |rem| >= 2 && !rem[0] && !rem[1] && dec.Rem() == rem[2..]
      modifies dec, tree
      ensures Valid() && dec.Valid() && table.View() == old(table.View())
      ensures Answers(ReadField(cx, table.View(), rem, limitUpdateAllowed), f, dec.Rem())
    {
      hide ReadInt, ReadPair, ReadFromIndex, Unread, ValidCodec;
      var isLimitUpdate := dec.ReadBit();
      if isLimitUpdate.None? {
        return Failed;
      }
      assert rem[3..] == dec.Rem();
      if isLimitUpdate.value {
        if !limitUpdateAllowed {
          return Failed;
        }
        var newLimit := dec.ReadHpackInt();
        return if newLimit.None? then Failed else LimitUpdate(newLimit.value);
      }
      var never := dec.ReadBit();
      if never.None? {
        return Failed;
      }
      assert rem[4..] == dec.Rem();
      f := LiteralField(dec, if never.value then NEVER else NO, false);
    }
  }

  /** What `NextField` returns for a field, and where it leaves the decoder. */
  predicate Answers(field: Field, f: FieldRead, rem: seq<bool>) {
    match field
    case Bad => f == Failed
    case Found(h, added, rest) => f == HeaderRead(h, added) && rem == rest
    case NewLimit(limit, rest) => f == LimitUpdate(limit) && rem == rest
  }

  /** Reading on from `at` with `chars` already read gives what reading from `rem` gives. */
  ghost predicate Continues(cx: Codec, rem: seq<bool>, at: seq<bool>, stop: int, chars: bytes) {
    match ReadChars(cx.leaves, at, stop)
    case None => ReadChars(cx.leaves, rem, stop) == None
    case Some((s, after)) => ReadChars(cx.leaves, rem, stop) == Some((chars + s, after))
  }

  lemma ContinueStart(cx: Codec, rem: seq<bool>, stop: int)
    ensures Continues(cx, rem, rem, stop, [])
  {
    var r := ReadChars(cx.leaves, rem, stop);
    assert r.Some? ==> [] + r.value.0 == r.value.0;
  }

  lemma ContinueStep(cx: Codec, rem: seq<bool>, at: seq<bool>, stop: int, chars: bytes)
    requires |at| > stop && Continues(cx, rem, at, stop, chars)
    ensures var r := ReadChar(cx.leaves, at, stop, []);
            && (r.EndOfData? ==> ReadChars(cx.leaves, rem, stop) == None)
            && (r.NoChar? ==> ReadChars(cx.leaves, rem, stop) == Some((chars, r.rest)))
            && (r.Char? ==> Continues(cx, rem, r.rest, stop, chars + [r.c]))
  {
    assert chars + [] == chars;
    if ReadChar(cx.leaves, at, stop, []).Char? {
      var c := ReadChar(cx.leaves, at, stop, []).c;
      var r := ReadChars(cx.leaves, ReadChar(cx.leaves, at, stop, []).rest, stop);
      if r.Some? {
        ConcatAssoc(chars, [c], r.value.0);
      }
    }
  }

  lemma PrependMore(hs: seq<Decoded>, h: Decoded, r: (Option<seq<Decoded>>, Table))
    ensures PrependAll(hs, Prepend(h, r)) == PrependAll(hs + [h], r)
  {
    if r.0.Some? {
      ConcatAssoc(hs, [h], r.0.value);
    }
  }
}
