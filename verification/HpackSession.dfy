/** An encoder and a decoder built from the published tables, talking to each other. */
module HpackSession {
  import opened Bits
  import opened Huffman
  import HuffmanTable
  import opened DynamicTable
  import opened StaticTable
  import opened Hpack
  import opened HpackCodec

  /** Both sides load the same two tables and start with the same limit. */
  method Open(limit: nat, huffman: bool) returns (enc: HpackEncoder, dec: HpackDecoder)
    ensures enc.Valid() && enc.cx.st.rows == STATIC_ROWS && enc.cx.huffman == huffman
    ensures dec.Valid() && dec.cx == enc.cx
    ensures fresh(enc) && fresh(enc.table) && fresh(dec) && fresh(dec.table) && fresh(dec.tree)
    ensures enc.table != dec.table
    ensures enc.table.View() == dec.table.View() == Table([], 0, limit)
  {
    hide KeysIndex, PairsIndex, ValidCode;
    var st := LoadStaticTable(STATIC_ROWS);
    var code, tree := HuffmanTable.LoadTable();
    ghost var leaves := tree.Leaves();
    ghost var cx := Codec(st, code, leaves, huffman);
    enc := new HpackEncoder(cx, st, code, huffman, limit);
    dec := new HpackDecoder(cx, st, tree, limit);
  }

  lemma NoBlocks(cx: Codec, t: Table)
    requires ValidCodec(cx) && t.Valid()
    ensures EncodeBlocks(cx, t, []).1 == t
  {
  }

  lemma NextBlock(cx: Codec, t: Table, blocks: seq<seq<Header>>, i: nat)
    requires ValidCodec(cx) && t.Valid() && i < |blocks|
    ensures EncodeBlocks(cx, t, blocks[..i + 1]).1 == EncodeBlock(cx, EncodeBlocks(cx, t, blocks[..i]).1, blocks[i]).1
    ensures SeenAt(cx, t, blocks, i) == SeenBlock(cx, EncodeBlocks(cx, t, blocks[..i]).1, blocks[i])
  {
    hide ValidCodec, EncodeBlock;
    assert blocks[..i + 1][..i] == blocks[..i];
  }

  /**
   * Every block sent is received as it was encoded, and the two tables are equal after it.
   */
  method Exchange(enc: HpackEncoder, dec: HpackDecoder, blocks: seq<seq<Header>>)
      returns (results: seq<Option<seq<Decoded>>>)
    requires enc.Valid() && dec.Valid() && dec.cx == enc.cx && enc.table != dec.table
    requires enc.table.View() == dec.table.View()
    modifies enc.table, dec.table, dec.tree
    ensures enc.Valid() && dec.Valid() && enc.table.View() == dec.table.View()
    ensures enc.table.View() == EncodeBlocks(enc.cx, old(enc.table.View()), blocks).1
    ensures |results| == |blocks|
    ensures forall k :: 0 <= k < |blocks| ==> results[k] == Some(SeenAt(enc.cx, old(enc.table.View()), blocks, k))
  {
    hide ValidCodec, EncodeBlocks, EncodeBlock, DecodeBlock, SeenBlock, SeenAt;
    NoBlocks(enc.cx, enc.table.View());
    ghost var t := enc.table.View();
    results := [];
    var i := 0;
    while i < |blocks|
      invariant 0 <= i <= |blocks| && |results| == i
      invariant enc.Valid() && dec.Valid() && enc.table.View() == dec.table.View()
      invariant enc.table.View() == EncodeBlocks(enc.cx, t, blocks[..i]).1
      invariant forall k :: 0 <= k < i ==> results[k] == Some(SeenAt(enc.cx, t, blocks, k))
    {
      ghost var ti := enc.table.View();
      NextBlock(enc.cx, t, blocks, i);
      var data := enc.Encode(blocks[i]);
      BlockRoundTrip(enc.cx, ti, blocks[i]);
      var r := dec.Decode(data);
      results := results + [r];
      i := i + 1;
    }
    assert blocks[..i] == blocks;
  }
}
