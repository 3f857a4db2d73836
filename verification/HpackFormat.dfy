/**
 * What the decoder makes of the field representations of section 6 of RFC 7541, whoever encoded them: any index,
 * any mode, and either form of every string.
 */
module HpackFormat {
  import opened Bits
  import opened HpackInt
  import opened Huffman
  import opened DynamicTable
  import opened StaticTable
  import opened Hpack

  // ---------- strings ----------

  /** A string and the form its sender chose for it. */
  datatype Text = Text(s: bytes, huffman: bool)

  function TextBits(cx: Codec, x: Text): (r: seq<bool>)
    requires ValidCodec(cx)
  {
    StringBits(cx.(huffman := x.huffman), x.s)
  }

  /** Section 5.2 of RFC 7541: the flag, the number of bytes in seven bits, and the bytes themselves. */
  lemma PlainFormat(cx: Codec, s: bytes)
    requires ValidCodec(cx)
    ensures TextBits(cx, Text(s, false)) == [false] + IntBits(7, |s|) + BytesBits(s)
  {
    hide IntBits, BytesBits;
  }

  /** Or the flag, the number of bytes the codes fill, the codes, and ones up to the end of the last byte. */
  lemma CodedFormat(cx: Codec, s: bytes)
    requires ValidCodec(cx)
    ensures var codes := CodeBits(cx.code, s);
            var length := (|codes| + 7) / 8;
            TextBits(cx, Text(s, true)) == [true] + IntBits(7, length) + codes + Ones(8 * length - |codes|)
  {
    hide IntBits, CodeBits, Ones;
    var codes := CodeBits(cx.code, s);
    var length := (|codes| + 7) / 8;
    ConcatAssoc([true] + IntBits(7, length), codes, Ones(8 * length - |codes|));
  }

  lemma TextReads(cx: Codec, x: Text, rest: seq<bool>)
    requires ValidCodec(cx) && Whole(rest)
    ensures ReadString(cx, TextBits(cx, x) + rest) == Some((x.s, rest))
    ensures Whole(TextBits(cx, x) + rest)
  {
    hide StringBits, ValidCode;
    var cx' := cx.(huffman := x.huffman);
    StringRoundTrip(cx', x.s, rest);
    WholeString(cx', x.s);
    WholeConcat(TextBits(cx, x), rest);
    SameReader(cx, x.huffman, TextBits(cx, x) + rest);
  }

  lemma SameReader(cx: Codec, huffman: bool, rem: seq<bool>)
    ensures ReadString(cx.(huffman := huffman), rem) == ReadString(cx, rem)
  {
    hide ReadInt, ReadChars, BitsBytes;
  }

  /** Plain bytes are taken as they are, as many as the length says; fewer are refused. */
  lemma PlainReads(cx: Codec, length: nat, b: seq<bool>)
    requires Whole(b)
    ensures ReadString(cx, [false] + (IntBits(7, length) + b)) ==
            if 8 * length <= |b| then Some((BitsBytes(b[..8 * length]), b[8 * length..])) else None
  {
    hide IntBits, ReadInt, BitsBytes;
    ReadIntRoundTrip(7, length, b);
  }

  /** So is a Huffman-coded string that is cut short. */
  lemma CutCodesRefused(cx: Codec, length: nat, b: seq<bool>)
    requires Whole(b) && |b| < 8 * length
    ensures ReadString(cx, [true] + (IntBits(7, length) + b)) == None
  {
    hide IntBits, ReadInt, ReadChars;
    ReadIntRoundTrip(7, length, b);
    NoEnd(cx.leaves, b, |b| - 8 * length);
  }

  lemma {:induction false} NoEnd(leaves: Leaves, b: seq<bool>, stop: int)
    requires stop < 0
    ensures ReadChars(leaves, b, stop) == None
    decreases |b|
  {
    hide ReadChar;
    match ReadChar(leaves, b, stop, [])
    case Char(_, rest) => NoEnd(leaves, rest, stop);
    case _ =>
  }

  // ---------- names ----------

  /** Section 2.3.3 of RFC 7541: the static table from index 1 on, behind it the dynamic table, newest entry first. */
  function PairAt(st: Static, t: Table, idx: nat): (r: Option<StaticEntry>)
    ensures 1 <= idx <= |st.rows| ==> r == Some(st.rows[idx - 1])
    ensures forall k :: 0 <= k < |t.entries| && idx == |st.rows| + 1 + k ==>
              r == Some(StaticEntry(t.entries[k].name, Some(t.entries[k].value)))
    ensures idx == 0 || idx > |st.rows| + |t.entries| ==> r == None
  {
    var all := st.rows + seq(|t.entries|, k requires 0 <= k < |t.entries| =>
                               StaticEntry(t.entries[k].name, Some(t.entries[k].value)));
    if 1 <= idx <= |all| then Some(all[idx - 1]) else None
  }

  lemma IndexIsPairAt(cx: Codec, t: Table, idx: nat)
    ensures ReadFromIndex(cx, t, idx) == PairAt(cx.st, t, idx)
  {
    if |cx.st.rows| < idx <= |cx.st.rows| + |t.entries| {
      var k := idx - |cx.st.rows| - 1;
      assert 0 <= k < |t.entries| && idx == |cx.st.rows| + 1 + k;
    }
  }

  lemma PairMeaning(st: Static, t: Table, idx: nat)
    ensures var e, lines := PairAt(st, t, idx), |st.rows|;
            && (1 <= idx <= lines ==> e == Some(st.rows[idx - 1]))
            && (lines < idx <= lines + |t.entries| ==>
                  var d := t.entries[idx - lines - 1];
                  e == Some(StaticEntry(d.name, Some(d.value))))
            && (idx == 0 || idx > lines + |t.entries| ==> e == None)
  {
    if |st.rows| < idx <= |st.rows| + |t.entries| {
      var k := idx - |st.rows| - 1;
      assert 0 <= k < |t.entries| && idx == |st.rows| + 1 + k;
    }
  }

  type positive = i: int | 1 <= i witness 1

  /** A literal's name: spelled out, or that of an indexed pair. */
  datatype Name = Spelled(text: Text) | Indexed(idx: positive)

  function NameBits(cx: Codec, n: nat, name: Name): (r: seq<bool>)
    requires ValidCodec(cx) && 1 <= n <= 8
  {
    match name
    case Spelled(x) => IntBits(n, 0) + TextBits(cx, x)
    case Indexed(idx) => IntBits(n, idx)
  }

  function NameOf(st: Static, t: Table, name: Name): Option<bytes> {
    match name
    case Spelled(x) => Some(x.s)
    case Indexed(idx) =>
      var e :- PairAt(st, t, idx);
      Some(e.name)
  }

  /**
   * A name index and a value read back as the name of the pair with that index; an index past both
   * tables is refused.
   */
  lemma IndexedNameReads(cx: Codec, t: Table, n: nat, idx: positive, value: Text, rest: seq<bool>)
    requires ValidCodec(cx) && 1 <= n <= 8 && Whole(rest)
    ensures var r := ReadPair(cx, t, IntBits(n, idx) + TextBits(cx, value) + rest);
            var lines := |cx.st.rows|;
            && (idx <= lines ==> r == Some(((cx.st.rows[idx - 1].name, value.s), rest)))
            && (lines < idx <= lines + |t.entries| ==>
                  r == Some(((t.entries[idx - lines - 1].name, value.s), rest)))
            && (idx > lines + |t.entries| ==> r == None)
  {
    hide IntBits, ReadInt, ReadString, TextBits, ValidCodec, ReadFromIndex, PairAt;
    TextReads(cx, value, rest);
    ConcatAssoc(IntBits(n, idx), TextBits(cx, value), rest);
    ReadIntRoundTrip(n, idx, TextBits(cx, value) + rest);
    IndexIsPairAt(cx, t, idx);
    PairMeaning(cx.st, t, idx);
  }

  lemma SpelledNameReads(cx: Codec, t: Table, n: nat, key: Text, value: Text, rest: seq<bool>)
    requires ValidCodec(cx) && 1 <= n <= 8 && Whole(rest)
    ensures ReadPair(cx, t, IntBits(n, 0) + TextBits(cx, key) + TextBits(cx, value) + rest) ==
            Some(((key.s, value.s), rest))
  {
    hide IntBits, ReadInt, ReadString, TextBits, ValidCodec, ReadFromIndex, PairAt;
    var k, v := TextBits(cx, key), TextBits(cx, value);
    TextReads(cx, value, rest);
    TextReads(cx, key, v + rest);
    assert IntBits(n, 0) + k + v + rest == IntBits(n, 0) + (k + (v + rest));
    ReadIntRoundTrip(n, 0, k + (v + rest));
  }

  lemma PairReads(cx: Codec, t: Table, n: nat, name: Name, value: Text, rest: seq<bool>)
    requires ValidCodec(cx) && 1 <= n <= 8 && Whole(rest)
    ensures ReadPair(cx, t, NameBits(cx, n, name) + TextBits(cx, value) + rest) ==
            match NameOf(cx.st, t, name)
            case None => None
            case Some(s) => Some(((s, value.s), rest))
  {
    hide IntBits, ReadPair, TextBits, ValidCodec, PairAt;
    match name
    case Spelled(x) => SpelledNameReads(cx, t, n, x, value, rest);
    case Indexed(idx) =>
      IndexedNameReads(cx, t, n, idx, value, rest);
      PairMeaning(cx.st, t, idx);
  }

  // ---------- the field representations ----------

  /** Sections 6.2.1 to 6.2.3 of RFC 7541: what stands before a literal's name, and the width of its index. */
  function Start(mode: Mode): (r: (seq<bool>, nat))
    ensures 1 <= r.1 <= 8 && |r.0| + r.1 == 8
  {
    match mode
    case YES => ([false, true], 6)
    case NEVER => ([false, false, false, true], 4)
    case NO => ([false, false, false, false], 4)
  }

  function LiteralBits(cx: Codec, mode: Mode, name: Name, value: Text): (r: seq<bool>)
    requires ValidCodec(cx)
  {
    Start(mode).0 + (NameBits(cx, Start(mode).1, name) + TextBits(cx, value))
  }

  /** Section 6.1: an index stands for its pair in the tables as they are at that point. */
  lemma IndexedField(cx: Codec, t: Table, idx: nat, rest: seq<bool>, limitAllowed: bool)
    requires t.Valid() && Whole(rest)
    ensures var r := DecodeBlock(cx, t, [true] + IntBits(7, idx) + rest, limitAllowed);
            var more := DecodeBlock(cx, t, rest, false);
            var rows := cx.st.rows;
            && (1 <= idx <= |rows| ==> r == Prepend(Decoded(rows[idx - 1].name, rows[idx - 1].value, YES), more))
            && (|rows| < idx <= |rows| + |t.entries| ==>
                  var e := t.entries[idx - |rows| - 1];
                  r == Prepend(Decoded(e.name, Some(e.value), YES), more))
            && (idx == 0 || idx > |rows| + |t.entries| ==> r == (None, t))
  {
    hide IntBits, ReadInt, ReadPair, Prepend;
    var rem := [true] + IntBits(7, idx) + rest;
    Skip([true], IntBits(7, idx), rest);
    ReadIntRoundTrip(7, idx, rest);
  }

  /** Section 6.2: a literal gives its name and value, and enters the table in the first mode only. */
  lemma LiteralField(cx: Codec, t: Table, mode: Mode, name: Name, value: Text, rest: seq<bool>, limitAllowed: bool)
    requires ValidCodec(cx) && t.Valid() && Whole(rest)
    ensures var r := DecodeBlock(cx, t, LiteralBits(cx, mode, name, value) + rest, limitAllowed);
            match NameOf(cx.st, t, name)
            case None => r == (None, t)
            case Some(s) =>
              var t' := if mode == YES then Add(t, Entry(s, value.s)) else t;
              r == Prepend(Decoded(s, Some(value.s), mode), DecodeBlock(cx, t', rest, false))
  {
    hide NameBits, TextBits, ReadPair, ReadInt, ReadFromIndex, NameOf, Prepend, ValidCodec, Add;
    var p := NameBits(cx, Start(mode).1, name) + TextBits(cx, value);
    PairReads(cx, t, Start(mode).1, name, value, rest);
    Skip(Start(mode).0, p, rest);
  }

  /** Section 6.3: a change of the limit takes effect where it is allowed and is refused elsewhere. */
  lemma LimitField(cx: Codec, t: Table, limit: nat, rest: seq<bool>, limitAllowed: bool)
    requires t.Valid() && Whole(rest)
    ensures DecodeBlock(cx, t, [false, false, true] + IntBits(5, limit) + rest, limitAllowed) ==
            if limitAllowed then DecodeBlock(cx, Resize(t, limit), rest, true) else (None, t)
  {
    hide IntBits, ReadInt, ReadPair, Resize;
    Skip([false, false, true], IntBits(5, limit), rest);
    ReadIntRoundTrip(5, limit, rest);
  }

  // ---------- whole blocks ----------

  datatype Representation =
    | Pair(idx: nat)
    | Literal(mode: Mode, name: Name, value: Text)
    | NewLimit(limit: nat)

  function RepresentationBits(cx: Codec, f: Representation): (r: seq<bool>)
    requires ValidCodec(cx)
  {
    match f
    case Pair(idx) => [true] + IntBits(7, idx)
    case Literal(mode, name, value) => LiteralBits(cx, mode, name, value)
    case NewLimit(limit) => [false, false, true] + IntBits(5, limit)
  }

  function BlockBits(cx: Codec, fields: seq<Representation>): (r: seq<bool>)
    requires ValidCodec(cx)
    decreases |fields|
  {
    if fields == [] then [] else RepresentationBits(cx, fields[0]) + BlockBits(cx, fields[1..])
  }

  /**
   * What a block of representations means (section 3.2 of RFC 7541): the headers, None for an index past the tables
   * or a misplaced change of the limit, and the table after it.
   */
  function Meaning(st: Static, t: Table, fields: seq<Representation>, limitAllowed: bool):
    (r: (Option<seq<Decoded>>, Table))
    requires t.Valid()
    ensures r.1.Valid()
    decreases |fields|
  {
    if fields == [] then (Some([]), t)
    else
      match fields[0]
      case Pair(idx) =>
        var e := PairAt(st, t, idx);
        if e.None? then (None, t)
        else Prepend(Decoded(e.value.name, e.value.value, YES), Meaning(st, t, fields[1..], false))
      case Literal(mode, name, value) =>
        var s := NameOf(st, t, name);
        if s.None? then (None, t)
        else
          var t' := if mode == YES then Add(t, Entry(s.value, value.s)) else t;
          Prepend(Decoded(s.value, Some(value.s), mode), Meaning(st, t', fields[1..], false))
      case NewLimit(limit) =>
        if limitAllowed then Meaning(st, Resize(t, limit), fields[1..], true) else (None, t)
  }

  lemma WholeText(cx: Codec, x: Text)
    requires ValidCodec(cx)
    ensures Whole(TextBits(cx, x))
  {
    hide ValidCode, StringBits;
    WholeString(cx.(huffman := x.huffman), x.s);
  }

  lemma WholeRepresentation(cx: Codec, f: Representation)
    requires ValidCodec(cx)
    ensures Whole(RepresentationBits(cx, f))
  {
    hide ValidCodec, Whole, IntBits, TextBits;
    match f
    case Pair(idx) => WholeInt([true], 7, idx);
    case NewLimit(limit) => WholeInt([false, false, true], 5, limit);
    case Literal(mode, name, value) =>
      var (start, n) := Start(mode);
      WholeText(cx, value);
      match name {
        case Indexed(idx) =>
          WholeInt(start, n, idx);
          WholeConcat(start + IntBits(n, idx), TextBits(cx, value));
          assert start + (IntBits(n, idx) + TextBits(cx, value)) == start + IntBits(n, idx) + TextBits(cx, value);
        case Spelled(x) =>
          WholeInt(start, n, 0);
          WholeText(cx, x);
          WholeConcat(start + IntBits(n, 0), TextBits(cx, x));
          WholeConcat(start + IntBits(n, 0) + TextBits(cx, x), TextBits(cx, value));
          assert start + (IntBits(n, 0) + TextBits(cx, x) + TextBits(cx, value)) ==
                 start + IntBits(n, 0) + TextBits(cx, x) + TextBits(cx, value);
      }
  }

  lemma {:induction false} WholeFields(cx: Codec, fields: seq<Representation>)
    requires ValidCodec(cx)
    ensures Whole(BlockBits(cx, fields))
    decreases |fields|
  {
    hide ValidCodec, RepresentationBits;
    if fields != [] {
      WholeRepresentation(cx, fields[0]);
      WholeFields(cx, fields[1..]);
      WholeConcat(RepresentationBits(cx, fields[0]), BlockBits(cx, fields[1..]));
    }
  }

  /** Every block that any encoder may write decodes to what its representations mean. */
  lemma {:induction false} BlockMeaning(cx: Codec, t: Table, fields: seq<Representation>, limitAllowed: bool)
    requires ValidCodec(cx) && t.Valid()
    ensures DecodeBlock(cx, t, BlockBits(cx, fields), limitAllowed) == Meaning(cx.st, t, fields, limitAllowed)
    decreases |fields|
  {
    hide ValidCodec, IntBits, LiteralBits, NameOf, PairAt, Prepend, Add, Resize, ReadField, Whole;
    if fields != [] {
      var rest := BlockBits(cx, fields[1..]);
      WholeFields(cx, fields[1..]);
      match fields[0]
      case NewLimit(limit) =>
        LimitField(cx, t, limit, rest, limitAllowed);
        if limitAllowed {
          BlockMeaning(cx, Resize(t, limit), fields[1..], true);
        }
      case Pair(idx) =>
        IndexedField(cx, t, idx, rest, limitAllowed);
        PairMeaning(cx.st, t, idx);
        BlockMeaning(cx, t, fields[1..], false);
      case Literal(mode, name, value) =>
        LiteralField(cx, t, mode, name, value, rest, limitAllowed);
        var s := NameOf(cx.st, t, name);
        if s.Some? {
          BlockMeaning(cx, if mode == YES then Add(t, Entry(s.value, value.s)) else t, fields[1..], false);
        }
    }
  }

  // ---------- what this encoder chooses ----------

  ghost predicate InTables(st: Static, t: Table, name: bytes, value: bytes) {
    StaticEntry(name, Some(value)) in st.rows || Entry(name, value) in t.entries
  }

  /**
   * A pair that a table holds is written as its index and changes nothing; any other as a literal in the mode given,
   * by index exactly if a line of the static table has its name, and it enters the table in the first mode only.
   */
  lemma EncoderChoice(cx: Codec, t: Table, h: Header)
    requires ValidCodec(cx) && t.Valid()
    ensures var (b, t') := EncodeHeader(cx, t, h);
            && (InTables(cx.st, t, h.name, h.value) ==>
                  t' == t && exists idx: nat :: b == [true] + IntBits(7, idx)
                                                && PairAt(cx.st, t, idx) == Some(StaticEntry(h.name, Some(h.value))))
            && (!InTables(cx.st, t, h.name, h.value) ==>
                  && t' == (if h.mode == YES then Add(t, Entry(h.name, h.value)) else t)
                  && exists name :: b == LiteralBits(cx, h.mode, name, Text(h.value, cx.huffman))
                                    && ChosenName(cx, t, h.name, name))
  {
    hide ValidCodec, FindPair, IntBits, PairAt, PairBits, LiteralBits, Add, ChosenName;
    IndexAgreement(cx, t, h.name, h.value);
    match FindPair(cx, t, h.name, h.value)
    case Some(idx) => IndexIsPairAt(cx, t, idx);
    case None => var _ := LiteralChoice(cx, t, h.mode, h.name, h.value);
  }

  ghost predicate ChosenName(cx: Codec, t: Table, s: bytes, name: Name) {
    && NameOf(cx.st, t, name) == Some(s)
    && (name.Indexed? <==> exists k :: 0 <= k < |cx.st.rows| && cx.st.rows[k].name == s)
    && (name.Indexed? ==> name.idx <= |cx.st.rows|)
    && (name.Spelled? ==> name.text.huffman == cx.huffman)
  }

  lemma LiteralChoice(cx: Codec, t: Table, mode: Mode, s: bytes, value: bytes) returns (name: Name)
    requires ValidCodec(cx)
    ensures ChosenName(cx, t, s, name)
    ensures LiteralBits(cx, mode, name, Text(value, cx.huffman)) ==
            Start(mode).0 + PairBits(cx, Start(mode).1, s, value)
  {
    name := NameChoice(cx, t, s);
    hide ValidCodec, ValidCode, IntBits, StringBits, ChosenName;
    assert cx.(huffman := cx.huffman) == cx;
  }

  lemma NameChoice(cx: Codec, t: Table, s: bytes) returns (name: Name)
    requires ValidCodec(cx)
    ensures ChosenName(cx, t, s, name)
    ensures name == match FindKey(cx, s) case None => Spelled(Text(s, cx.huffman)) case Some(idx) => Indexed(idx)
  {
    hide ValidCodec, FindKey;
    KeyFound(cx, t, s);
    match FindKey(cx, s)
    case None => name := Spelled(Text(s, cx.huffman));
    case Some(idx) =>
      name := Indexed(idx);
      IndexIsPairAt(cx, t, idx);
  }
}
