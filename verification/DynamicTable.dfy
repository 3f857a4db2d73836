/** The dynamic table of HPACK (sections 4.1 to 4.4 of RFC 7541). */
module DynamicTable {
  import opened Bits

  datatype Entry = Entry(name: bytes, value: bytes)

  function EntrySize(e: Entry): nat {
    |e.name| + |e.value| + 32
  }

  function TotalSize(entries: seq<Entry>): nat {
    if entries == [] then 0 else TotalSize(entries[..|entries| - 1]) + EntrySize(entries[|entries| - 1])
  }

  /** Entries newest first, the running size, and the limit it must respect. */
  datatype Table = Table(entries: seq<Entry>, size: int, limit: nat) {
    ghost predicate Counted() {
      size == TotalSize(entries)
    }

    ghost predicate Valid() {
      Counted() && size <= limit
    }
  }

  // ---------- what the code computes: add, then evict ----------

  /** Drops the oldest entries until the size is within the limit. */
  function Evict(t: Table): (r: Table)
    requires t.Counted()
    ensures r.Valid() && r.limit == t.limit
    decreases |t.entries|
  {
    if t.size > t.limit then
      var last := |t.entries| - 1;
      Evict(Table(t.entries[..last], t.size - EntrySize(t.entries[last]), t.limit))
    else t
  }

  function Add(t: Table, e: Entry): (r: Table)
    requires t.Counted()
    ensures r.Valid() && r.limit == t.limit
  {
    TotalSizeCons(e, t.entries);
    Evict(Table([e] + t.entries, t.size + EntrySize(e), t.limit))
  }

  function Resize(t: Table, limit: nat): (r: Table)
    requires t.Counted()
    ensures r.Valid() && r.limit == limit
  {
    Evict(t.(limit := limit))
  }

  lemma {:induction false} TotalSizeCons(e: Entry, entries: seq<Entry>)
    ensures TotalSize([e] + entries) == EntrySize(e) + TotalSize(entries)
  {
    if entries == [] {
      assert [e] + entries == [e] && [e][..0] == [];
    } else {
      var init := entries[..|entries| - 1];
      TotalSizeCons(e, init);
      assert ([e] + entries)[..|entries|] == [e] + init;
    }
  }

  // ---------- what eviction keeps ----------

  lemma {:induction false} TotalSizeMonotone(entries: seq<Entry>, j: nat, k: nat)
    requires j <= k <= |entries|
    ensures TotalSize(entries[..j]) + (if j < k then 32 else 0) <= TotalSize(entries[..k])
    decreases k
  {
    if j < k {
      TotalSizeMonotone(entries, j, k - 1);
      assert entries[..k][..k - 1] == entries[..k - 1];
    }
  }

  /** Eviction leaves the longest newest-first part that fits the limit. */
  lemma {:induction false} EvictKeepsLongestPrefix(t: Table)
    requires t.Counted()
    ensures var k := |Evict(t).entries|;
            && k <= |t.entries| && Evict(t).entries == t.entries[..k]
            && TotalSize(t.entries[..k]) <= t.limit
            && (k < |t.entries| ==> TotalSize(t.entries[..k + 1]) > t.limit)
    decreases |t.entries|
  {
    var n := |t.entries|;
    assert t.entries[..n] == t.entries;
    if t.size > t.limit {
      var t' := Table(t.entries[..n - 1], t.size - EntrySize(t.entries[n - 1]), t.limit);
      EvictKeepsLongestPrefix(t');
      var k := |Evict(t).entries|;
      assert t'.entries[..k] == t.entries[..k];
      if k + 1 < n {
        assert t'.entries[..k + 1] == t.entries[..k + 1];
      }
    }
  }

  /** There is only one longest fitting part. */
  lemma LongestPrefixUnique(entries: seq<Entry>, limit: nat, j: nat, k: nat)
    requires j <= |entries| && k <= |entries|
    requires TotalSize(entries[..j]) <= limit && (j < |entries| ==> TotalSize(entries[..j + 1]) > limit)
    requires TotalSize(entries[..k]) <= limit && (k < |entries| ==> TotalSize(entries[..k + 1]) > limit)
    ensures j == k
  {
    if j < k {
      TotalSizeMonotone(entries, j + 1, k);
    } else if k < j {
      TotalSizeMonotone(entries, k + 1, j);
    }
  }

  // ---------- what the standard prescribes: evict, then add ----------

  /** Section 4.4 of RFC 7541: evict until `room` is enough or nothing is left. */
  function EvictTo(entries: seq<Entry>, room: int): (r: seq<Entry>) {
    if entries == [] || TotalSize(entries) <= room then entries
    else EvictTo(entries[..|entries| - 1], room)
  }

  /** Make room first; add the entry only if it can fit at all. */
  function RfcAdd(t: Table, e: Entry): Table {
    var kept := EvictTo(t.entries, t.limit - EntrySize(e));
    var entries := if EntrySize(e) <= t.limit then [e] + kept else kept;
    Table(entries, TotalSize(entries), t.limit)
  }

  function RfcResize(t: Table, limit: nat): Table {
    var entries := EvictTo(t.entries, limit);
    Table(entries, TotalSize(entries), limit)
  }

  lemma {:induction false} EvictIsEvictTo(t: Table)
    requires t.Counted()
    ensures Evict(t).entries == EvictTo(t.entries, t.limit)
    decreases |t.entries|
  {
    if t.size > t.limit {
      var n := |t.entries| - 1;
      EvictIsEvictTo(Table(t.entries[..n], t.size - EntrySize(t.entries[n]), t.limit));
    }
  }

  /** The new entry is the last one to go: while it fits, only older entries are dropped. */
  lemma {:induction false} EvictBehindNewEntry(e: Entry, rest: seq<Entry>, limit: nat)
    ensures EvictTo([e] + rest, limit) ==
            if EntrySize(e) <= limit then [e] + EvictTo(rest, limit - EntrySize(e)) else []
    decreases |rest|
  {
    TotalSizeCons(e, rest);
    if rest == [] {
      assert [e] + rest == [e] && [e][..0] == [];
    } else {
      var n := |rest| - 1;
      assert ([e] + rest)[..|rest|] == [e] + rest[..n];
      EvictBehindNewEntry(e, rest[..n], limit);
      if EntrySize(e) > limit {
        assert EvictTo([e] + rest, limit) == EvictTo([e] + rest[..n], limit);
      }
    }
  }

  lemma {:induction false} EvictToNothing(entries: seq<Entry>, room: int)
    requires room < 0
    ensures EvictTo(entries, room) == []
  {
    if entries != [] {
      EvictToNothing(entries[..|entries| - 1], room);
    }
  }

  /** Adding and then evicting is what the standard's evict-then-add gives; too large an entry empties the table. */
  lemma AddIsRfcAdd(t: Table, e: Entry)
    requires t.Counted()
    ensures Add(t, e) == RfcAdd(t, e)
    ensures EntrySize(e) > t.limit ==> Add(t, e).entries == []
  {
    TotalSizeCons(e, t.entries);
    EvictIsEvictTo(Table([e] + t.entries, t.size + EntrySize(e), t.limit));
    EvictBehindNewEntry(e, t.entries, t.limit);
    if EntrySize(e) > t.limit {
      EvictToNothing(t.entries, t.limit - EntrySize(e));
    }
  }

  lemma ResizeIsRfcResize(t: Table, limit: nat)
    requires t.Counted()
    ensures Resize(t, limit) == RfcResize(t, limit)
  {
    EvictIsEvictTo(t.(limit := limit));
  }

  // ---------- whole histories ----------

  datatype Operation = Insert(e: Entry) | Limit(limit: nat)

  /** The table after a history of insertions and limit changes, as the code computes it. */
  function History(t: Table, ops: seq<Operation>): (r: Table)
    requires t.Valid()
    ensures r.Valid()
    decreases |ops|
  {
    if ops == [] then t
    else History(match ops[0] case Insert(e) => Add(t, e) case Limit(l) => Resize(t, l), ops[1..])
  }

  /** The same history as the standard prescribes it. */
  function RfcHistory(t: Table, ops: seq<Operation>): Table
    decreases |ops|
  {
    if ops == [] then t
    else RfcHistory(match ops[0] case Insert(e) => RfcAdd(t, e) case Limit(l) => RfcResize(t, l), ops[1..])
  }

  lemma {:induction false} HistoryIsRfcHistory(t: Table, ops: seq<Operation>)
    requires t.Valid()
    ensures History(t, ops) == RfcHistory(t, ops) && History(t, ops).Valid()
    decreases |ops|
  {
    if ops != [] {
      match ops[0]
      case Insert(e) =>
        AddIsRfcAdd(t, e);
        HistoryIsRfcHistory(Add(t, e), ops[1..]);
      case Limit(l) =>
        ResizeIsRfcResize(t, l);
        HistoryIsRfcHistory(Resize(t, l), ops[1..]);
    }
  }

  // ---------- sizes in octets ----------

  /** Section 4.1 of RFC 7541: the octets of names and values, and 32 for every entry. */
  function Octets(entries: seq<Entry>): nat {
    if entries == [] then 0 else |entries[0].name| + |entries[0].value| + 32 + Octets(entries[1..])
  }

  lemma {:induction false} TotalIsOctets(entries: seq<Entry>)
    ensures TotalSize(entries) == Octets(entries)
  {
    if entries != [] {
      TotalIsOctets(entries[1..]);
      TotalSizeCons(entries[0], entries[1..]);
      assert entries == [entries[0]] + entries[1..];
    }
  }

  /** The size of a table is that of its entries, and within the limit. */
  lemma SizeIsOctets(t: Table)
    requires t.Valid()
    ensures t.size == Octets(t.entries) <= t.limit
  {
    TotalIsOctets(t.entries);
  }

  /** An entry alone is kept exactly if its name, its value and 32 octets fit. */
  lemma FitsAlone(limit: nat, e: Entry)
    ensures Add(Table([], 0, limit), e).entries == [e] <==> |e.name| + |e.value| + 32 <= limit
    ensures Add(Table([], 0, limit), e).entries == [] <==> |e.name| + |e.value| + 32 > limit
  {
    var t := Table([], 0, limit);
    KeepsWhatFits(t, e);
    assert [e] + [] == [e] && [e][..1] == [e] && [e][1..] == [];
  }

  /** After an insertion the table holds as many of the newest entries as fit the limit. */
  lemma KeepsWhatFits(t: Table, e: Entry)
    requires t.Valid()
    ensures var all, kept := [e] + t.entries, |Add(t, e).entries|;
            && kept <= |all| && Add(t, e).entries == all[..kept] && Octets(all[..kept]) <= t.limit
            && (kept < |all| ==> Octets(all[..kept + 1]) > t.limit)
  {
    hide Evict, Octets, TotalSize;
    TotalSizeCons(e, t.entries);
    var before := Table([e] + t.entries, t.size + EntrySize(e), t.limit);
    EvictKeepsLongestPrefix(before);
    var kept := |Add(t, e).entries|;
    TotalIsOctets(before.entries[..kept]);
    if kept < |before.entries| {
      TotalIsOctets(before.entries[..kept + 1]);
    }
  }

  /** So it does after a change of the limit. */
  lemma ResizeKeepsWhatFits(t: Table, limit: nat)
    requires t.Valid()
    ensures var kept := |Resize(t, limit).entries|;
            && kept <= |t.entries| && Resize(t, limit).entries == t.entries[..kept]
            && Octets(t.entries[..kept]) <= limit
            && Resize(t, limit).limit == limit
            && (kept < |t.entries| ==> Octets(t.entries[..kept + 1]) > limit)
  {
    hide Evict, Octets, TotalSize;
    EvictKeepsLongestPrefix(t.(limit := limit));
    var kept := |Resize(t, limit).entries|;
    TotalIsOctets(t.entries[..kept]);
    if kept < |t.entries| {
      TotalIsOctets(t.entries[..kept + 1]);
    }
  }

  // ---------- the table as an object ----------

  /** The fields and the two methods that HpackEncoder and HpackDecoder have in common. */
  class Dynamic {
    var entries: seq<Entry>
    var size: int
    var limit: nat

    ghost function View(): Table
      reads this
    {
      Table(entries, size, limit)
    }

    constructor (limit: nat)
      ensures View() == Table([], 0, limit) && View().Valid()
    {
      entries, size, this.limit := [], 0, limit;
    }

    method AddToDynamicTable(name: bytes, value: bytes)
      requires View().Valid()
      modifies this
      ensures View() == Add(old(View()), Entry(name, value))
      ensures size == Octets(entries) <= limit
    {
      hide Octets;
      var e := Entry(name, value);
      TotalSizeCons(e, entries);
      entries := [e] + entries;
      size := size + EntrySize(e);
      GcDynamicTable();
      SizeIsOctets(View());
    }

    /** The pop never meets an empty table. */
    method GcDynamicTable()
      requires View().Counted()
      modifies this
      ensures View() == Evict(old(View()))
    {
      while size > limit
        invariant View().Counted() && Evict(View()) == Evict(old(View()))
        decreases |entries|
      {
        assert entries != [];
        var last := entries[|entries| - 1];
        entries := entries[..|entries| - 1];
        size := size - EntrySize(last);
      }
    }

    method SetLimit(limit: nat)
      requires View().Valid()
      modifies this
      ensures View() == Resize(old(View()), limit)
    {
      this.limit := limit;
      GcDynamicTable();
    }
  }
}
