/** The connection's loop from the bytes of the socket: reading a frame under the limit in force, and handling it. */
module ByteLoop {
  import opened Bits
  import opened Protocol
  import opened Frames
  import opened Receiving
  import opened Dispatch
  import opened SettingsEffect

  lemma LegalLimit(c: Conn)
    requires LegalSettings(c.settings)
    ensures ReadLimit(c) >= 16384
  {
  }

  lemma LegalStays(env: Env, c: Conn, f: Frame)
    requires c.table.Valid() && LegalSettings(c.settings)
    ensures LegalSettings(Receive(env, c, f).settings)
  {
    hide HandleFrame, ApplySettings, LegalSettings;
    SettingsStayLegal(c.settings, f.data);
    if !NewSettings(f) {
      OthersKeepSettings(env, c, Read(f));
    }
  }

  /** Frames of up to 16384 bytes are read whatever settings the peer has sent, and handled one after the other. */
  lemma {:induction false} BytesAreFrames(env: Env, c: Conn, frames: seq<Frame>)
    requires c.table.Valid() && LegalSettings(c.settings)
    requires forall k :: 0 <= k < |frames| ==> Writable(frames[k]) && |frames[k].data| <= 16384
    ensures ReceiveBytes(env, c, WriteAll(frames)).0 == ReceiveAll(env, c, frames)
    ensures ReceiveAll(env, c, frames).alive ==> ReceiveBytes(env, c, WriteAll(frames)).1 == []
    decreases |frames|
  {
    hide Receive, ReadFrame, LegalSettings, ReadLimit, WithReservedBit;
    if !c.alive {
      DeadForAll(env, c, frames);
    } else if frames != [] {
      var rest := WriteAll(frames[1..]);
      LegalLimit(c);
      FrameRoundTrip(frames[0], false, rest, ReadLimit(c));
      WrittenFirst(frames);
      LegalStays(env, c, frames[0]);
      BytesAreFrames(env, Receive(env, c, frames[0]), frames[1..]);
    } else {
      assert ReadFrame([], ReadLimit(c)) == Incomplete by {
        NothingRead(ReadLimit(c));
      }
    }
  }

  lemma NothingRead(limit: nat)
    ensures ReadFrame([], limit) == Incomplete
  {
  }

  lemma WrittenFirst(frames: seq<Frame>)
    requires frames != [] && forall k :: 0 <= k < |frames| ==> Writable(frames[k])
    ensures WriteAll(frames) == WithReservedBit(frames[0], false) + WriteAll(frames[1..])
  {
  }

  lemma {:induction false} DeadForAll(env: Env, c: Conn, frames: seq<Frame>)
    requires c.table.Valid() && !c.alive
    ensures ReceiveAll(env, c, frames) == c
    decreases |frames|
  {
    if frames != [] {
      DeadForAll(env, c, frames[1..]);
    }
  }

  /**
   * On a connection that lives, that limit is what the last entry [0, 5] of all SETTINGS so far announced, or 16384
   * bytes; a frame beyond it ends the connection with FRAME_SIZE_ERROR before its data is looked at.
   */
  lemma LimitFromSettings(env: Env, headerTableSize: nat, events: seq<Event>, stream: bytes)
    requires Run(env, Opened(env.isClient, headerTableSize), events).alive && |stream| >= 9
    ensures var c, entries := Run(env, Opened(env.isClient, headerTableSize), events), Entries(Payloads(events));
            && (NoneOf(entries, 5) ==> RefusedBeyond(env, c, stream, 16384))
            && forall k :: 0 <= k < |entries| && entries[k].code == 5 && NoneOf(entries[k + 1..], 5) ==>
                 RefusedBeyond(env, c, stream, entries[k].value)
  {
    hide Run, Entries, AllLegal, RefusedBeyond;
    var c0 := Opened(env.isClient, headerTableSize);
    RunTells(env, c0, events, MAX_FRAME_SIZE, DEFAULT_MAX_FRAME_SIZE);
    Beyond(env, Run(env, c0, events), stream);
  }

  ghost predicate RefusedBeyond(env: Env, c: Conn, stream: bytes, limit: nat)
    requires c.table.Valid() && |stream| >= 9
  {
    var a: int, b: int, n: int := stream[0], stream[1], stream[2];
    0x1_0000 * a + 0x100 * b + n > limit <==>
    ReadFrame(stream, ReadLimit(c)).TooLarge?
    && ReceiveBytes(env, c, stream).0 == c.(alive := false, replies := c.replies + [GoAway(FRAME_SIZE_ERROR)])
  }

  lemma Beyond(env: Env, c: Conn, stream: bytes)
    requires c.table.Valid() && c.alive && |stream| >= 9
    ensures RefusedBeyond(env, c, stream, ReadLimit(c))
  {
    hide Receive, ReadFrame;
    RefusedForSize(stream, ReadLimit(c));
  }
}
