/** The static table of HPACK (tornado_http2/hpack_static_table.txt) and its two indexes. */
module StaticTable {
  import opened Bits

  /** Lines without a value hold None, not the empty string of Appendix A of RFC 7541. */
  datatype StaticEntry = StaticEntry(name: bytes, value: Option<bytes>)

  function Ascii(s: string): (r: bytes)
    ensures |r| == |s|
  {
    seq(|s|, i requires 0 <= i < |s| => s[i] as int % 256)
  }

  function NameOnly(name: string): StaticEntry {
    StaticEntry(Ascii(name), None)
  }

  function Pair(name: string, value: string): StaticEntry {
    StaticEntry(Ascii(name), Some(Ascii(value)))
  }

  /** Lines 1 to 14: the pseudo-header fields. */
  const PSEUDO_ROWS: seq<StaticEntry> := [
    NameOnly(":authority"), Pair(":method", "GET"), Pair(":method", "POST"), Pair(":path", "/"),
    Pair(":path", "/index.html"), Pair(":scheme", "http"), Pair(":scheme", "https"),
    Pair(":status", "200"), Pair(":status", "204"), Pair(":status", "206"), Pair(":status", "304"),
    Pair(":status", "400"), Pair(":status", "404"), Pair(":status", "500")
  ]

  const FIELD_ROWS: seq<StaticEntry> := [
    NameOnly("accept-charset"),
    Pair("accept-encoding", "gzip, deflate"), NameOnly("accept-language"), NameOnly("accept-ranges"),
    NameOnly("accept"), NameOnly("access-control-allow-origin"), NameOnly("age"), NameOnly("allow"),
    NameOnly("authorization"), NameOnly("cache-control"), NameOnly("content-disposition"),
    NameOnly("content-encoding"), NameOnly("content-language"), NameOnly("content-length"),
    NameOnly("content-location"), NameOnly("content-range"), NameOnly("content-type"),
    NameOnly("cookie"), NameOnly("date"), NameOnly("etag"), NameOnly("expect"), NameOnly("expires"),
    NameOnly("from"), NameOnly("host"), NameOnly("if-match"), NameOnly("if-modified-since"),
    NameOnly("if-none-match"), NameOnly("if-range"), NameOnly("if-unmodified-since"),
    NameOnly("last-modified"), NameOnly("link"), NameOnly("location"), NameOnly("max-forwards"),
    NameOnly("proxy-authenticate"), NameOnly("proxy-authorization"), NameOnly("range"),
    NameOnly("referer"), NameOnly("refresh"), NameOnly("retry-after"), NameOnly("server"),
    NameOnly("set-cookie"), NameOnly("strict-transport-security"), NameOnly("transfer-encoding"),
    NameOnly("user-agent"), NameOnly("vary"), NameOnly("via"), NameOnly("www-authenticate")
  ]

  /** Line i of the file is at position i - 1; index 0 is a dummy. */
  const STATIC_ROWS: seq<StaticEntry> := PSEUDO_ROWS + FIELD_ROWS

  // ---------- the indexes ----------

  ghost predicate Points(rows: seq<StaticEntry>, keys: map<bytes, nat>) {
    forall k :: k in keys ==> 1 <= keys[k] <= |rows| && rows[keys[k] - 1].name == k
  }

  ghost predicate Earliest(rows: seq<StaticEntry>, keys: map<bytes, nat>) {
    forall k, j :: k in keys && 0 <= j < keys[k] - 1 && j < |rows| ==> rows[j].name != k
  }

  ghost predicate Covers(rows: seq<StaticEntry>, keys: map<bytes, nat>) {
    forall j :: 0 <= j < |rows| ==> rows[j].name in keys
  }

  /** A name is found at its earliest line. */
  ghost predicate KeysIndex(rows: seq<StaticEntry>, keys: map<bytes, nat>) {
    Points(rows, keys) && Earliest(rows, keys) && Covers(rows, keys)
  }

  /** A pair is found at its last line. */
  ghost predicate PairsIndex(rows: seq<StaticEntry>, pairs: map<StaticEntry, nat>)
  {
    && (forall p :: p in pairs ==> 1 <= pairs[p] <= |rows| && rows[pairs[p] - 1] == p)
    && (forall j :: 0 <= j < |rows| ==> rows[j] in pairs && pairs[rows[j]] > j)
  }

  /** What `_load_static_table` returns; `len(_static_table)` is one more than the number of lines. */
  datatype Static = Static(rows: seq<StaticEntry>, keys: map<bytes, nat>, pairs: map<StaticEntry, nat>) {
    ghost predicate Valid() {
      KeysIndex(rows, keys) && PairsIndex(rows, pairs)
    }

    function Length(): nat {
      |rows| + 1
    }
  }

  lemma EmptyIndexes()
    ensures KeysIndex([], map[]) && PairsIndex([], map[])
  {
  }

  function WithKey(done: seq<StaticEntry>, e: StaticEntry, keys: map<bytes, nat>): map<bytes, nat> {
    if e.name in keys then keys else keys[e.name := |done| + 1]
  }

  lemma PointsStep(done: seq<StaticEntry>, e: StaticEntry, keys: map<bytes, nat>)
    requires Points(done, keys)
    ensures Points(done + [e], WithKey(done, e, keys))
  {
  }

  lemma EarliestStep(done: seq<StaticEntry>, e: StaticEntry, keys: map<bytes, nat>)
    requires Points(done, keys) && Earliest(done, keys) && Covers(done, keys)
    ensures Earliest(done + [e], WithKey(done, e, keys))
  {
    var rows, keys' := done + [e], WithKey(done, e, keys);
    forall k, j | k in keys' && 0 <= j < keys'[k] - 1 && j < |rows|
      ensures rows[j].name != k
    {
      assert rows[j] == done[j];
    }
  }

  lemma CoversStep(done: seq<StaticEntry>, e: StaticEntry, keys: map<bytes, nat>)
    requires Covers(done, keys)
    ensures Covers(done + [e], WithKey(done, e, keys))
  {
  }

  lemma KeysStep(done: seq<StaticEntry>, e: StaticEntry, keys: map<bytes, nat>)
    requires KeysIndex(done, keys)
    ensures KeysIndex(done + [e], WithKey(done, e, keys))
  {
    hide Points, Earliest, Covers;
    PointsStep(done, e, keys);
    EarliestStep(done, e, keys);
    CoversStep(done, e, keys);
  }

  lemma PairsStep(done: seq<StaticEntry>, e: StaticEntry, pairs: map<StaticEntry, nat>)
    requires PairsIndex(done, pairs)
    ensures PairsIndex(done + [e], pairs[e := |done| + 1])
  {
  }

  method LoadStaticTable(rows: seq<StaticEntry>) returns (st: Static)
    ensures st.Valid() && st.rows == rows
  {
    hide KeysIndex, PairsIndex;
    EmptyIndexes();
    var keys: map<bytes, nat> := map[];
    var pairs: map<StaticEntry, nat> := map[];
    var i := 1;
    while i < |rows| + 1
      invariant 1 <= i <= |rows| + 1
      invariant KeysIndex(rows[..i - 1], keys)
      invariant PairsIndex(rows[..i - 1], pairs)
    {
      var pair := rows[i - 1];
      KeysStep(rows[..i - 1], pair, keys);
      PairsStep(rows[..i - 1], pair, pairs);
      assert rows[..i] == rows[..i - 1] + [pair];
      if pair.name !in keys {
        keys := keys[pair.name := i];
      }
      pairs := pairs[pair := i];
      i := i + 1;
    }
    assert rows[..i - 1] == rows;
    st := Static(rows, keys, pairs);
  }
}
