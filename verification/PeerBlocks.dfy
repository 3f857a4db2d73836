/** The decoder's table over a whole connection with a peer that encodes its header blocks (section 4.3 of RFC 7540). */
module PeerBlocks {
  import opened Bits
  import opened Frames
  import opened DynamicTable
  import opened StaticTable
  import opened Hpack
  import opened Receiving
  import opened Dispatch
  import opened DispatchRuns
  import opened HeaderBlocks

  // ---------- one block ----------

  /** An unpadded frame that carries, behind its priority fields if it has any, a whole block encoded with table `t`. */
  ghost predicate Carries(cx: Codec, t: Table, f: Frame, hs: seq<Header>)
    requires ValidCodec(cx) && t.Valid()
  {
    var block := WithoutPriority(f, f.data).0;
    && f.typ == HEADERS && Has(f.flags, FLAG_END_HEADERS) && !Has(f.flags, FLAG_PADDED)
    && block.Some? && BytesBits(block.value) == EncodeBlock(cx, t, hs).0
  }

  /** The stream interprets the very headers that were encoded, and the decoder's table becomes the encoder's. */
  lemma BlockIsUnderstood(env: Env, s: StreamState, t: Table, f: Frame, hs: seq<Header>)
    requires ValidCodec(env.cx) && t.Valid() && Carries(env.cx, t, f, hs) && s.headerFrames == [f]
    ensures ParseHeaders(env, s, t) ==
            AfterDecode(env, s.(headerFrames := []), EncodeBlock(env.cx, t, hs).1, f.flags, SeenBlock(env.cx, t, hs))
  {
    hide AfterDecode, EncodeBlock, DecodeBlock, ValidCodec, SeenBlock, WithoutPriority;
    JoinedSingle(f);
    BlockRoundTrip(env.cx, t, hs);
  }

  lemma BlockEndsFragments(env: Env, s: StreamState, t: Table, flags: byte, headers: seq<Decoded>)
    requires s.headerFrames == []
    ensures AfterDecode(env, s, t, flags, headers).s.headerFrames == []
  {
  }

  lemma SettledNonePending(c: Conn, id: nat, h: Handled)
    requires NonePending(c) && h.s.headerFrames == []
    ensures var c' := Conclude(Settle(c, id, h)); NonePending(c') && c'.table == h.t
  {
  }

  /** After a block on an acceptable stream the two tables are equal, however the stream takes the headers. */
  lemma BlockKeepsStep(env: Env, c: Conn, f: Frame, hs: seq<Header>)
    requires ValidCodec(env.cx) && c.table.Valid() && c.alive && NonePending(c) && Acceptable(env, c, f.id)
    requires Carries(env.cx, c.table, f, hs) && |f.data| <= env.maxHeaderSize
    ensures var c' := Receive(env, c, f);
            if Refused(c, f.id) then !c'.alive && c'.table == c.table
            else NonePending(c') && c'.table == EncodeBlock(env.cx, c.table, hs).1
  {
    hide ParseHeaders, Receive, Conclude, Settle, AfterDecode, EncodeBlock, SeenBlock, ValidCodec, IsLocal;
    KeptByPadding(f);
    FirstFragment(env, c, f);
    if !Refused(c, f.id) {
      var c' := Ready(c, f.id);
      var s := WithFragments(c'.streams[f.id], [f]);
      BlockIsUnderstood(env, s, c.table, f, hs);
      var h := ParseHeaders(env, s, c.table);
      BlockEndsFragments(env, s.(headerFrames := []), h.t, f.flags, SeenBlock(env.cx, c.table, hs));
      SettledNonePending(c', f.id, h);
    }
  }

  /**
   * A block sent on a finished stream is answered with STREAM_CLOSED and never decoded, so the tables
   * are equal after a block on an existing stream exactly when the stream was open, or the block
   * left the encoder's table as it was.
   */
  lemma InStepExactly(env: Env, c: Conn, f: Frame, hs: seq<Header>)
    requires ValidCodec(env.cx) && c.table.Valid() && c.alive && NonePending(c) && f.id != 0 && f.id in c.streams
    requires Carries(env.cx, c.table, f, hs) && |f.data| <= env.maxHeaderSize
    ensures var t := EncodeBlock(env.cx, c.table, hs).1;
            Receive(env, c, f).table == t <==> !c.streams[f.id].finished || t == c.table
  {
    hide EncodeBlock, ValidCodec, HandleHeaders, WithoutPriority;
    if !c.streams[f.id].finished {
      BlockKeepsStep(env, c, f, hs);
    }
  }

  /** Adding a new entry changes every table but an empty one that the entry does not fit. */
  lemma AddChanges(t: Table, e: Entry)
    requires t.Valid() && e !in t.entries
    ensures Add(t, e) == t <==> t.entries == [] && EntrySize(e) > t.limit
  {
    AddIsRfcAdd(t, e);
    if EntrySize(e) <= t.limit {
      TotalSizeCons(e, t.entries);
      var before := Table([e] + t.entries, t.size + EntrySize(e), t.limit);
      EvictKeepsLongestPrefix(before);
      OneEntry(e);
      assert before.entries[..1] == [e];
      assert Add(t, e).entries[0] == e;
    }
  }

  lemma OneEntry(e: Entry)
    ensures TotalSize([e]) == EntrySize(e)
  {
    TotalSizeCons(e, []);
    assert [e] + [] == [e];
  }

  /**
   * One header on a finished stream puts the tables out of step exactly when it is to be indexed, is in
   * no table yet, and either fits the table or empties it. The encoder knows all of this beforehand.
   */
  lemma HeaderInStepExactly(env: Env, c: Conn, f: Frame, h: Header)
    requires ValidCodec(env.cx) && c.table.Valid() && c.alive && NonePending(c) && f.id != 0 && f.id in c.streams
    requires Carries(env.cx, c.table, f, [h]) && |f.data| <= env.maxHeaderSize
    ensures var t, e := c.table, Entry(Lower(h.name), h.value);
            Receive(env, c, f).table == EncodeBlock(env.cx, t, [h]).1 <==>
            || !c.streams[f.id].finished
            || h.mode != YES
            || StaticEntry(e.name, Some(e.value)) in env.cx.st.rows
            || e in t.entries
            || (t.entries == [] && EntrySize(e) > t.limit)
  {
    hide ValidCodec, Carries, Receive, Lower, FindPair, Add;
    InStepExactly(env, c, f, [h]);
    IndexAgreement(env.cx, c.table, Lower(h.name), h.value);
    OneHeader(env.cx, c.table, h);
    var e := Entry(Lower(h.name), h.value);
    if e !in c.table.entries {
      AddChanges(c.table, e);
    }
  }

  lemma OneHeader(cx: Codec, t: Table, h: Header)
    requires ValidCodec(cx) && t.Valid()
    ensures EncodeBlock(cx, t, [h]).1 == if Added(cx, t, LowerHeader(h)) then Add(t, Entry(Lower(h.name), h.value))
            else t
  {
    hide ValidCodec, Lower, FindPair, Add, PairBits;
    assert [h][1..] == [];
  }

  // ---------- a header that is lost ----------

  function Longest(rows: seq<StaticEntry>): (n: nat)
    ensures forall e :: e in rows ==> |e.name| <= n
  {
    if rows == [] then 0
    else
      var n := Longest(rows[1..]);
      if |rows[0].name| > n then |rows[0].name| else n
  }

  /** A name of x's that is longer than those of the static table. */
  function NewName(cx: Codec): bytes {
    seq(Longest(cx.st.rows) + 1, i requires 0 <= i < Longest(cx.st.rows) + 1 => 120)
  }

  lemma NameIsNew(cx: Codec)
    ensures StaticEntry(NewName(cx), Some([121])) !in cx.st.rows && Lower(NewName(cx)) == NewName(cx)
  {
    assert forall e :: e in cx.st.rows ==> |e.name| < |NewName(cx)|;
  }

  /** A header that no table has. */
  function NewHeader(cx: Codec): Header {
    Header(NewName(cx), [121], YES)
  }

  /** A request without headers or body, which ends its stream. */
  const EMPTY_REQUEST: Frame := Frame(HEADERS, 5, 1, [])

  /** It is sent on the stream that has ended. */
  function LateHeader(cx: Codec, limit: nat): Frame
    requires ValidCodec(cx)
  {
    Frame(HEADERS, FLAG_END_HEADERS, 1, BitsBytes(LateBlock(cx, limit)))
  }

  function LateBlock(cx: Codec, limit: nat): (r: seq<bool>)
    requires ValidCodec(cx)
    ensures |r| % 8 == 0
  {
    WholeBlock(cx, Table([], 0, limit), [NewHeader(cx)]);
    EncodeBlock(cx, Table([], 0, limit), [NewHeader(cx)]).0
  }

  /** A fresh server after the empty request, if it accepts that: stream 1 is there and finished, the table empty. */
  lemma RequestIsFinished(env: Env, limit: nat)
    requires !env.isClient && env.interpret(false, []) == Accept(0, Absent)
    ensures var c := Receive(env, Opened(false, limit), EMPTY_REQUEST);
            && c.alive && c.table == Table([], 0, limit) && 1 in c.streams && c.streams[1].finished
               && c.streams[1].headerFrames == []
            && c.last == Some(1)
  {
    JoinedSingle(EMPTY_REQUEST);
    assert [] + [EMPTY_REQUEST] == [EMPTY_REQUEST];
    var t := Table([], 0, limit);
    assert DecodeBlock(env.cx, t, BytesBits([]), true) == (Some([]), t);
  }

  /** The run: a header on a finished stream, after which the tables differ and the connection lives on. */
  lemma DecoderFallsBehind(env: Env, limit: nat)
    requires ValidCodec(env.cx) && limit >= EntrySize(Entry(NewName(env.cx), [121]))
    requires !env.isClient && env.interpret(false, []) == Accept(0, Absent)
    ensures var t := Table([], 0, limit);
            var c := ReceiveAll(env, Opened(false, limit), [EMPTY_REQUEST, LateHeader(env.cx, limit)]);
            && c.alive && c.table == t
            && Carries(env.cx, t, LateHeader(env.cx, limit), [NewHeader(env.cx)])
            && EncodeBlock(env.cx, t, [NewHeader(env.cx)]).1 != t
  {
    hide ValidCodec, EncodeBlock, BitsBytes, Receive, FindPair, Add, Lower, NewName, WithoutPriority, LateBlock;
    var c0, t, f, e := Opened(false, limit), Table([], 0, limit), LateHeader(env.cx, limit),
        Entry(NewName(env.cx), [121]);
    var c1 := Receive(env, c0, EMPTY_REQUEST);
    RequestIsFinished(env, limit);
    assert [EMPTY_REQUEST, f][1..] == [f] && [f][1..] == [];
    assert ReceiveAll(env, c0, [EMPTY_REQUEST, f]) == ReceiveAll(env, c1, [f]);
    assert ReceiveAll(env, c1, [f]) == ReceiveAll(env, Receive(env, c1, f), []);
    LateHeaderIsIgnored(env, c1, f);
    LateHeaderCarries(env.cx, limit);
    NameIsNew(env.cx);
    OneHeader(env.cx, t, NewHeader(env.cx));
    IndexAgreement(env.cx, t, NewName(env.cx), [121]);
    AddChanges(t, e);
  }

  lemma LateHeaderCarries(cx: Codec, limit: nat)
    requires ValidCodec(cx)
    ensures Carries(cx, Table([], 0, limit), LateHeader(cx, limit), [NewHeader(cx)])
  {
    hide ValidCodec, EncodeBlock, NewName, BitsBytes;
    BitsBytesBits(LateBlock(cx, limit));
  }

  lemma LateHeaderIsIgnored(env: Env, c: Conn, f: Frame)
    requires c.table.Valid() && c.alive && c.last == Some(f.id) && f.id != 0 && f.typ == HEADERS
    requires f.id in c.streams && c.streams[f.id].finished && c.streams[f.id].headerFrames == []
    ensures Receive(env, c, f).alive && Receive(env, c, f).table == c.table
  {
    hide HandleHeaders;
  }

  /** Only HEADERS and CONTINUATION frames reach the decoder or the fragments. */
  lemma OtherFrames(env: Env, c: Conn, f: Frame)
    requires c.table.Valid() && NonePending(c) && f.typ != HEADERS && f.typ != CONTINUATION
    ensures var c' := Receive(env, c, f); NonePending(c') && c'.table == c.table
  {
    hide Settle, HandleControl, HandleFrame;
    if c.alive && f.id != 0 && f.id in c.streams {
      OtherFrameOnStream(env, c.streams[f.id], c.table, f);
      SettledNonePending(c, f.id, HandleFrame(env, c.streams[f.id], c.table, f));
    } else if f.id == 0 {
      ControlLeavesStreams(c, f);
    }
  }

  lemma ControlLeavesStreams(c: Conn, f: Frame)
    ensures HandleControl(c, f).c.streams == c.streams
  {
  }

  lemma OtherFrameOnStream(env: Env, s: StreamState, t: Table, f: Frame)
    requires t.Valid() && s.headerFrames == [] && f.typ != HEADERS && f.typ != CONTINUATION
    ensures var h := HandleFrame(env, s, t, f); h.t == t && h.s.headerFrames == []
  {
  }

  lemma LocalEvents(env: Env, c: Conn, e: Event)
    requires c.table.Valid() && NonePending(c) && !e.Read?
    ensures var c' := Step(env, c, e); NonePending(c') && c'.table == c.table && c'.alive == c.alive
  {
  }

  // ---------- a whole connection ----------

  /**
   * What happens on a connection: header blocks, each of which is `whole` in one piece and `h` with the
   * events `after` on the wire, other frames, and what the application does.
   */
  datatype Item =
    | Block(whole: Frame, h: Frame, after: seq<Event>, hs: seq<Header>)
    | Other(f: Frame)
    | Local(e: Event)

  function EventsOf(item: Item): seq<Event> {
    match item
    case Block(_, h, after, _) => [Read(h)] + after
    case Other(f) => [Read(f)]
    case Local(e) => [e]
  }

  function Events(items: seq<Item>): seq<Event> {
    if items == [] then [] else EventsOf(items[0]) + Events(items[1..])
  }

  /** The encoder's table after an item. */
  function AfterItem(cx: Codec, t: Table, item: Item): (r: Table)
    requires ValidCodec(cx) && t.Valid()
    ensures r.Valid()
  {
    if item.Block? then EncodeBlock(cx, t, item.hs).1 else t
  }

  function EncoderTable(cx: Codec, t: Table, items: seq<Item>): (r: Table)
    requires ValidCodec(cx) && t.Valid()
    ensures r.Valid()
    decreases |items|
  {
    if items == [] then t else EncoderTable(cx, AfterItem(cx, t, items[0]), items[1..])
  }

  /** A block comes from the peer's encoder, in any split, on a stream that is not finished when it arrives. */
  ghost predicate Sendable(env: Env, c: Conn, t: Table, item: Item)
    requires ValidCodec(env.cx) && t.Valid()
  {
    match item
    case Block(whole, h, after, hs) =>
      && Carries(env.cx, t, whole, hs) && Splits(whole, h, after)
      && |whole.data| <= env.maxHeaderSize && Acceptable(env, c, whole.id)
    case Other(f) => f.typ != HEADERS && f.typ != CONTINUATION
    case Local(e) => !e.Read?
  }

  ghost predicate Sends(env: Env, c: Conn, t: Table, items: seq<Item>)
    requires ValidCodec(env.cx) && t.Valid() && c.table.Valid()
    decreases |items|
  {
    items != [] ==>
      && Sendable(env, c, t, items[0])
      && Sends(env, Run(env, c, EventsOf(items[0])), AfterItem(env.cx, t, items[0]), items[1..])
  }

  /** One item leaves the tables equal, or ends the connection. */
  lemma ItemKeepsStep(env: Env, c: Conn, item: Item)
    requires ValidCodec(env.cx) && ConnInv(env.isClient, c) && c.alive && NonePending(c) && c.table.Valid()
    requires Sendable(env, c, c.table, item)
    ensures var c' := Run(env, c, EventsOf(item));
            && ConnInv(env.isClient, c')
            && (c'.alive ==> NonePending(c') && c'.table == AfterItem(env.cx, c.table, item))
  {
    hide ConnInv, ValidCodec, EncodeBlock, Receive, Run, Splits, Carries, NonePending, Acceptable, Ready, Refused,
      Step;
    RunKeeps(env, c, EventsOf(item));
    match item
    case Block(whole, h, after, hs) =>
      FragmentationDoesNotMatter(env, c, whole, h, after);
      if Refused(c, whole.id) {
        BlockKeepsStep(env, c, whole, hs);
        DeadStaysDead(env, Receive(env, c, whole), Locals(after));
      } else {
        AcceptedBlock(env, c, whole, h, after);
        var d := Run(env, Ready(c, whole.id), Locals(after));
        ReceptiveIsReady(env, d, whole);
        BlockKeepsStep(env, d, whole, hs);
      }
    case Other(f) =>
      OneEvent(env, c, Read(f));
      OtherFrames(env, c, f);
      ReadsOne(env, c, f);
    case Local(e) =>
      OneEvent(env, c, e);
      LocalEvents(env, c, e);
  }

  lemma OneEvent(env: Env, c: Conn, e: Event)
    requires c.table.Valid()
    ensures Run(env, c, [e]) == Step(env, c, e)
  {
    assert [e][1..] == [];
  }

  lemma ReadsOne(env: Env, c: Conn, f: Frame)
    requires c.table.Valid()
    ensures Step(env, c, Read(f)) == Receive(env, c, f)
  {
  }

  lemma {:induction false} RunConcat(env: Env, c: Conn, a: seq<Event>, b: seq<Event>)
    requires c.table.Valid()
    ensures Run(env, c, a + b) == Run(env, Run(env, c, a), b)
    decreases |a|
  {
    hide Step;
    if a == [] {
      assert a + b == b;
    } else {
      assert (a + b)[1..] == a[1..] + b;
      RunConcat(env, Step(env, c, a[0]), a[1..], b);
    }
  }

  /**
   * For any mix of header blocks on any streams, cut in any way, with any other frames and anything the
   * application does between them and between their fragments, the decoder's table is the peer's
   * encoder's table for as long as the connection lives.
   */
  lemma {:induction false} TablesStayInStep(env: Env, c: Conn, items: seq<Item>)
    requires ValidCodec(env.cx) && ConnInv(env.isClient, c) && NonePending(c) && c.table.Valid()
    requires Sends(env, c, c.table, items)
    ensures var c' := Run(env, c, Events(items));
            c'.alive ==> NonePending(c') && c'.table == EncoderTable(env.cx, c.table, items)
    decreases |items|
  {
    hide ConnInv, ValidCodec, Sendable, NonePending, AfterItem, Step;
    if !c.alive {
      DeadStaysDead(env, c, Events(items));
    } else if items != [] {
      var d := Run(env, c, EventsOf(items[0]));
      RunConcat(env, c, EventsOf(items[0]), Events(items[1..]));
      ItemKeepsStep(env, c, items[0]);
      if d.alive {
        TablesStayInStep(env, d, items[1..]);
      } else {
        DeadStaysDead(env, d, Events(items[1..]));
      }
    }
  }

  /** Section 4.3 of RFC 7540, for a client and for a server, from the start of the connection. */
  lemma InStepFromTheStart(env: Env, headerTableSize: nat, items: seq<Item>)
    requires ValidCodec(env.cx) && Sends(env, Opened(env.isClient, headerTableSize), Table([], 0, headerTableSize),
             items)
    ensures var c := After(env, headerTableSize, Events(items));
            c.alive ==> c.table == EncoderTable(env.cx, Table([], 0, headerTableSize), items)
  {
    hide ValidCodec, Sends, Run, EncoderTable, ConnInv;
    OpenedInv(env.isClient, headerTableSize);
    TablesStayInStep(env, Opened(env.isClient, headerTableSize), items);
  }

  /** A client may be sent a first block once it has opened its stream, a server at once. */
  lemma FirstBlockIsSendable(env: Env, headerTableSize: nat, f: Frame, hs: seq<Header>)
    requires ValidCodec(env.cx) && Carries(env.cx, Table([], 0, headerTableSize), f, hs)
    requires f.id == 1 && |f.data| <= env.maxHeaderSize
    ensures var block := Block(f, f, [], hs);
            Sends(env, Opened(env.isClient, headerTableSize), Table([], 0, headerTableSize),
                  if env.isClient then [Local(Open), block] else [block])
  {
    hide ValidCodec, EncodeBlock, WithoutPriority, Step;
    var c, t, block := Opened(env.isClient, headerTableSize), Table([], 0, headerTableSize), Block(f, f, [], hs);
    KeptByPadding(f);
    assert Splits(f, f, []) by {
      assert f.data + [] == f.data;
    }
    if env.isClient {
      OpensStreamOne(env, c);
      OneEvent(env, c, Open);
      OneItem(env, Step(env, c, Open), t, block);
      assert [Local(Open), block][1..] == [block];
    } else {
      OneItem(env, c, t, block);
    }
  }

  lemma OneItem(env: Env, c: Conn, t: Table, item: Item)
    requires ValidCodec(env.cx) && t.Valid() && c.table.Valid() && Sendable(env, c, t, item)
    ensures Sends(env, c, t, [item])
  {
    assert [item][1..] == [];
  }

  lemma OpensStreamOne(env: Env, c: Conn)
    requires c.table.Valid() && c.nextId == 1
    ensures 1 in Step(env, c, Open).streams && !Step(env, c, Open).streams[1].finished
  {
  }
}
