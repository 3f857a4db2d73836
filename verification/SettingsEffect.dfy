/** What the peer's SETTINGS change, from the bytes of their entries (section 6.5 of RFC 7540). */
module SettingsEffect {
  import opened Bits
  import opened Protocol
  import opened FlowControl
  import opened Frames
  import opened DynamicTable
  import opened Receiving
  import opened Dispatch

  // ---------- entries ----------

  datatype Announced = Announced(code: nat, value: nat)

  /** Six bytes each: two of code and four of value, most significant first. */
  function Entries(data: bytes): (r: seq<Announced>)
    ensures |r| == |data| / 6
  {
    seq(|data| / 6, k requires 0 <= k < |data| / 6 =>
      var a: int, b: int := data[6 * k], data[6 * k + 1];
      var p: int, q: int, r: int, s: int := data[6 * k + 2], data[6 * k + 3], data[6 * k + 4], data[6 * k + 5];
      Announced(0x100 * a + b, 0x100_0000 * p + 0x1_0000 * q + 0x100 * r + s))
  }

  predicate LegalEntry(e: Announced) {
    && (e.code == 2 ==> e.value <= 1)
    && (e.code == 4 ==> e.value <= 0x7fff_ffff)
    && (e.code == 5 ==> 16384 <= e.value <= 0xff_ffff)
  }

  ghost predicate AllLegal(entries: seq<Announced>) {
    forall k :: 0 <= k < |entries| ==> LegalEntry(entries[k])
  }

  ghost predicate NoneOf(entries: seq<Announced>, code: nat) {
    forall k :: 0 <= k < |entries| ==> entries[k].code != code
  }

  /** Section 6.5.2: the last entry with a code counts; without one the value stays. */
  ghost predicate Tells(entries: seq<Announced>, code: nat, before: nat, after: nat) {
    && (NoneOf(entries, code) ==> after == before)
    && forall k :: 0 <= k < |entries| && entries[k].code == code && NoneOf(entries[k + 1..], code) ==>
         after == entries[k].value
  }

  lemma EntriesCons(data: bytes)
    requires |data| >= 6
    ensures var (code, value) := FirstSetting(data);
            Entries(data) == [Announced(code, value)] + Entries(data[6..])
  {
  }

  lemma {:induction false} EntriesConcat(a: bytes, b: bytes)
    requires |a| % 6 == 0
    ensures Entries(a + b) == Entries(a) + Entries(b)
  {
    if a == [] {
      assert a + b == b;
    } else {
      hide Entries;
      EntriesConcat(a[6..], b);
      EntriesCons(a);
      EntriesCons(a + b);
      assert (a + b)[6..] == a[6..] + b;
      assert a + b == a[..6] + (a[6..] + b);
    }
  }

  lemma TellsConcat(a: seq<Announced>, b: seq<Announced>, code: nat, before: nat, between: nat, after: nat)
    requires Tells(a, code, before, between) && Tells(b, code, between, after)
    ensures Tells(a + b, code, before, after)
  {
    forall k | 0 <= k < |a + b| && (a + b)[k].code == code && NoneOf((a + b)[k + 1..], code)
      ensures after == (a + b)[k].value
    {
      if k < |a| {
        assert (a + b)[k + 1..] == a[k + 1..] + b;
        NoneOfConcat(a[k + 1..], b, code);
      } else {
        assert (a + b)[k + 1..] == b[k - |a| + 1..];
      }
    }
    NoneOfConcat(a, b, code);
  }

  lemma NoneOfConcat(a: seq<Announced>, b: seq<Announced>, code: nat)
    ensures NoneOf(a + b, code) <==> NoneOf(a, code) && NoneOf(b, code)
  {
    if NoneOf(a + b, code) {
      forall k | 0 <= k < |a| ensures a[k].code != code { assert (a + b)[k] == a[k]; }
      forall k | 0 <= k < |b| ensures b[k].code != code { assert (a + b)[|a| + k] == b[k]; }
    }
  }

  lemma TellsOne(e: Announced, code: nat, before: nat)
    ensures Tells([e], code, before, if e.code == code then e.value else before)
  {
    assert [e][0] == e && [e][1..] == [];
  }

  // ---------- a payload ----------

  lemma RefusedEntry(e: Announced)
    ensures Refusal(e.code, e.value) ==
            if LegalEntry(e) then None else if e.code == 4 then Some(FLOW_CONTROL_ERROR) else Some(PROTOCOL_ERROR)
  {
  }

  /** A payload is accepted exactly if it is made of legal entries; then every setting is what they tell of it. */
  lemma {:induction false} PayloadTells(settings: map<nat, nat>, data: bytes, code: nat, default: nat)
    ensures var (after, outcome) := ApplySettings(settings, data);
            && (outcome == Ok <==> |data| % 6 == 0 && AllLegal(Entries(data)))
            && (outcome == Ok || outcome.ConnectionError?)
            && (outcome == Ok ==>
                  Tells(Entries(data), code, Setting(settings, code, default), Setting(after, code, default)))
    decreases |data|
  {
    hide Entries, Tells, LegalEntry, FirstSetting, Refusal;
    if |data| >= 6 {
      var (c, value) := FirstSetting(data);
      var e, rest := Announced(c, value), Entries(data[6..]);
      EntriesCons(data);
      RefusedEntry(e);
      AllLegalCons(e, rest);
      if LegalEntry(e) {
        PayloadTells(settings[c := value], data[6..], code, default);
        TellsOne(e, code, Setting(settings, code, default));
        if ApplySettings(settings, data).1 == Ok {
          TellsConcat([e], rest, code, Setting(settings, code, default), Setting(settings[c := value], code, default),
            Setting(ApplySettings(settings, data).0, code, default));
        }
      }
    } else {
      NoEntries(data, code, Setting(settings, code, default));
    }
  }

  lemma NoEntries(data: bytes, code: nat, v: nat)
    requires |data| < 6
    ensures AllLegal(Entries(data)) && Tells(Entries(data), code, v, v)
  {
  }

  lemma AllLegalCons(e: Announced, entries: seq<Announced>)
    ensures AllLegal([e] + entries) <==> LegalEntry(e) && AllLegal(entries)
  {
    if AllLegal([e] + entries) {
      assert LegalEntry(([e] + entries)[0]);
      forall k | 0 <= k < |entries| ensures LegalEntry(entries[k]) { assert ([e] + entries)[k + 1] == entries[k]; }
    }
  }

  /** The first illegal entry decides how a payload is refused; a legal one of another length has the wrong size. */
  lemma {:induction false} PayloadRefused(settings: map<nat, nat>, data: bytes, k: nat)
    requires k <= |Entries(data)| && AllLegal(Entries(data)[..k])
    requires if k == |Entries(data)| then |data| % 6 != 0 else !LegalEntry(Entries(data)[k])
    ensures ApplySettings(settings, data).1 == ConnectionError(
              if k == |Entries(data)| then FRAME_SIZE_ERROR
              else if Entries(data)[k].code == 4 then FLOW_CONTROL_ERROR
              else PROTOCOL_ERROR)
    decreases k
  {
    hide Entries, LegalEntry, FirstSetting, Refusal;
    if |data| >= 6 {
      var (c, value) := FirstSetting(data);
      var e := Announced(c, value);
      EntriesCons(data);
      RefusedEntry(e);
      if k > 0 {
        assert Entries(data)[..k] == [e] + Entries(data[6..])[..k - 1];
        AllLegalCons(e, Entries(data[6..])[..k - 1]);
        PayloadRefused(settings[c := value], data[6..], k - 1);
      }
    }
  }

  // ---------- the connection ----------

  /** No header block is under way on the stream that handled a frame last. */
  predicate BetweenBlocks(c: Conn) {
    c.last.Some? ==> !Pending(c, c.last.value)
  }

  predicate NewSettings(f: Frame) {
    f.typ == SETTINGS && f.id == 0 && !Has(f.flags, FLAG_ACK)
  }

  /** The window a stream would start with if the application opened it now. */
  ghost function OpensWith(env: Env, c: Conn): int
    requires c.table.Valid()
  {
    Step(env, c, Open).streams[c.nextId].window.size
  }

  lemma OpensWithSetting(env: Env, c: Conn)
    requires c.table.Valid()
    ensures OpensWith(env, c) == Setting(c.settings, INITIAL_WINDOW_SIZE, DEFAULT_WINDOW_SIZE)
  {
  }

  /**
   * SETTINGS between header blocks are acknowledged exactly if all entries are legal and none is cut short; a stream
   * opened afterwards starts with the window that the last entry [0, 4] announces, if there is one.
   */
  lemma SettingsTakeEffect(env: Env, c: Conn, f: Frame)
    requires c.table.Valid() && c.alive && BetweenBlocks(c) && NewSettings(f)
    ensures var c', legal := Receive(env, c, f), |f.data| % 6 == 0 && AllLegal(Entries(f.data));
            && (c'.alive <==> legal)
            && (legal ==>
                  && c' == c.(settings := c'.settings, replies := c.replies + [SettingsAck])
                  && OpensWith(env, c) >= 0 && OpensWith(env, c') >= 0
                  && Tells(Entries(f.data), 4, OpensWith(env, c), OpensWith(env, c')))
  {
    hide Entries, Tells, AllLegal, ApplySettings, DynamicTable.Table.Valid;
    PayloadTells(c.settings, f.data, INITIAL_WINDOW_SIZE, DEFAULT_WINDOW_SIZE);
    OpensWithSetting(env, c);
    OpensWithSetting(env, Receive(env, c, f));
  }

  /** Otherwise the connection ends with the error of the first illegal entry, or of the size. */
  lemma SettingsRefused(env: Env, c: Conn, f: Frame, k: nat)
    requires c.table.Valid() && c.alive && BetweenBlocks(c) && NewSettings(f)
    requires k <= |Entries(f.data)| && AllLegal(Entries(f.data)[..k])
    requires if k == |Entries(f.data)| then |f.data| % 6 != 0 else !LegalEntry(Entries(f.data)[k])
    ensures var c' := Receive(env, c, f);
            !c'.alive && c'.replies == c.replies + [GoAway(
              if k == |Entries(f.data)| then FRAME_SIZE_ERROR
              else if Entries(f.data)[k].code == 4 then FLOW_CONTROL_ERROR
              else PROTOCOL_ERROR)]
  {
    hide Entries, AllLegal, LegalEntry, ApplySettings;
    PayloadRefused(c.settings, f.data, k);
  }

  lemma HeadersKeepWindow(env: Env, s: StreamState, t: Table, f: Frame)
    requires t.Valid() && f.typ == HEADERS
    ensures HandleFrame(env, s, t, f).s.window == s.window
  {
    hide Hpack.DecodeBlock, Joined, WithoutPriority, WithoutPadding, Has;
  }

  /** A stream that a client's HEADERS create starts with the same window. */
  lemma RemoteOpensAlike(env: Env, c: Conn, f: Frame)
    requires c.table.Valid() && c.alive && BetweenBlocks(c) && !env.isClient
    requires f.typ == HEADERS && f.id != 0 && f.id !in c.streams && f.id % 2 != c.nextId % 2
    ensures var c' := Receive(env, c, f);
            f.id in c'.streams && c'.streams[f.id].window == Win(OpensWith(env, c), false, {})
  {
    hide HandleFrame;
    OpensWithSetting(env, c);
    HeadersKeepWindow(env, CreateRemote(c, f.id).streams[f.id], c.table, f);
  }

  lemma FrameKeepsSettings(env: Env, c: Conn, f: Frame)
    requires c.table.Valid() && !NewSettings(f)
    ensures Act(env, c, f).c.settings == c.settings
  {
    hide HandleFrame, ApplySettings, Has, Updated, UpdateOutcome, UnknownStream, IsLocal;
  }

  lemma ConcludeKeepsSettings(a: Acted)
    ensures Conclude(a).settings == a.c.settings
  {
  }

  /** Nothing else touches the settings. */
  lemma OthersKeepSettings(env: Env, c: Conn, e: Event)
    requires c.table.Valid()
    requires e.Read? ==> !NewSettings(e.f)
    ensures Step(env, c, e).settings == c.settings
    ensures OpensWith(env, Step(env, c, e)) == OpensWith(env, c)
  {
    hide Act, Conclude, OpensWith;
    OpensWithSetting(env, c);
    OpensWithSetting(env, Step(env, c, e));
    if e.Read? {
      FrameKeepsSettings(env, c, e.f);
      ConcludeKeepsSettings(Act(env, c, e.f));
    }
  }

  // ---------- whole runs ----------

  /** The payloads of all SETTINGS frames that are read, one behind the other. */
  function Payloads(events: seq<Event>): bytes {
    if events == [] then []
    else (if events[0].Read? && NewSettings(events[0].f) then events[0].f.data else []) + Payloads(events[1..])
  }

  lemma {:induction false} DeadStaysDead(env: Env, c: Conn, events: seq<Event>)
    requires c.table.Valid() && !c.alive
    ensures !Run(env, c, events).alive
    decreases |events|
  {
    if events != [] {
      DeadStaysDead(env, Step(env, c, events[0]), events[1..]);
    }
  }

  lemma SettingsBetweenBlocks(env: Env, c: Conn, f: Frame)
    requires c.table.Valid() && c.alive && NewSettings(f) && Receive(env, c, f).alive
    ensures BetweenBlocks(c)
  {
    hide HandleFrame, ApplySettings, Has;
  }

  /** Over a run that the connection survives, every setting is what the payloads tell of it. */
  lemma {:induction false} RunTells(env: Env, c: Conn, events: seq<Event>, code: nat, default: nat)
    requires c.table.Valid() && Run(env, c, events).alive
    ensures var data := Payloads(events);
            && |data| % 6 == 0 && AllLegal(Entries(data))
            && Tells(Entries(data), code, Setting(c.settings, code, default),
                     Setting(Run(env, c, events).settings, code, default))
    decreases |events|
  {
    hide Step, Entries, Tells, AllLegal, NewSettings, Setting;
    var before := Setting(c.settings, code, default);
    if events == [] {
      NoEntries([], code, before);
    } else {
      var e, c' := events[0], Step(env, c, events[0]);
      if !c'.alive {
        DeadStaysDead(env, c', events[1..]);
      }
      RunTells(env, c', events[1..], code, default);
      var rest := Payloads(events[1..]);
      if e.Read? && NewSettings(e.f) {
        FirstTells(env, c, e.f, code, default);
        EntriesConcat(e.f.data, rest);
        LegalConcat(Entries(e.f.data), Entries(rest));
        TellsConcat(Entries(e.f.data), Entries(rest), code, before, Setting(c'.settings, code, default),
          Setting(Run(env, c, events).settings, code, default));
      } else {
        OthersKeepSettings(env, c, e);
        assert [] + rest == rest;
      }
    }
  }

  lemma FirstTells(env: Env, c: Conn, f: Frame, code: nat, default: nat)
    requires c.table.Valid() && NewSettings(f) && Step(env, c, Read(f)).alive
    ensures |f.data| % 6 == 0 && AllLegal(Entries(f.data))
    ensures Tells(Entries(f.data), code, Setting(c.settings, code, default),
                  Setting(Step(env, c, Read(f)).settings, code, default))
  {
    hide Entries, Tells, AllLegal, Setting, ApplySettings, HandleFrame;
    assert c.alive by {
      if !c.alive {
        DeadReceives(env, c, f);
      }
    }
    SettingsBetweenBlocks(env, c, f);
    PayloadTells(c.settings, f.data, code, default);
  }

  lemma DeadReceives(env: Env, c: Conn, f: Frame)
    requires c.table.Valid() && !c.alive
    ensures Receive(env, c, f) == c
  {
  }

  lemma LegalConcat(a: seq<Announced>, b: seq<Announced>)
    requires AllLegal(a) && AllLegal(b)
    ensures AllLegal(a + b)
  {
  }

  /**
   * While a connection lives, every entry it has read was legal, and the next stream starts with the window that the
   * last entry [0, 4] of all frames so far announced, or with 65535 bytes if there was none.
   */
  lemma WindowFromSettings(env: Env, headerTableSize: nat, events: seq<Event>)
    requires Run(env, Opened(env.isClient, headerTableSize), events).alive
    ensures var c, entries := Run(env, Opened(env.isClient, headerTableSize), events), Entries(Payloads(events));
            && |Payloads(events)| % 6 == 0 && AllLegal(entries)
            && (NoneOf(entries, 4) ==> OpensWith(env, c) == 65535)
            && forall k :: 0 <= k < |entries| && entries[k].code == 4 && NoneOf(entries[k + 1..], 4) ==>
                 OpensWith(env, c) == entries[k].value
  {
    hide Run, Entries, AllLegal;
    var c0 := Opened(env.isClient, headerTableSize);
    RunTells(env, c0, events, INITIAL_WINDOW_SIZE, DEFAULT_WINDOW_SIZE);
    OpensWithSetting(env, Run(env, c0, events));
  }
}
