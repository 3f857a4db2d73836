/** The decoding tree and the table loader (`_load_huffman_data` of encoding.py). */
module HuffmanTree {
  import opened Bits
  import opened Huffman

  /** One line of the code table: a symbol (256 is the end-of-string mark) and its code. */
  datatype Row = Row(symbol: nat, code: nat, len: nat) {
    function Code(): (r: seq<bool>)
      ensures |r| == len
    {
      ToBits(code, len)
    }
  }

  const EOS_SYMBOL := 256

  datatype Cell = Inner | Leaf(key: byte)

  type Cells = map<seq<bool>, Cell>

  /** The root is a dictionary, and every other cell hangs below a dictionary. */
  ghost predicate Shape(cells: Cells)
  {
    && [] in cells && cells[[]].Inner?
    && (forall p :: p in cells && p != [] ==> InnerAt(cells, p[..|p| - 1]))
  }

  ghost predicate InnerAt(cells: Cells, p: seq<bool>)
  {
    p in cells && cells[p].Inner?
  }

  ghost function LeavesOf(cells: Cells): Leaves
  {
    map p | p in cells && cells[p].Leaf? :: cells[p].key
  }

  /** A child created by a lookup is no leaf. */
  lemma AddInner(cells: Cells, p: seq<bool>)
    requires Shape(cells) && p !in cells && p != [] && InnerAt(cells, p[..|p| - 1])
    ensures Shape(cells[p := Inner]) && LeavesOf(cells[p := Inner]) == LeavesOf(cells)
  {
  }

  lemma AddLeaf(cells: Cells, p: seq<bool>, key: byte)
    requires Shape(cells) && p != [] && InnerAt(cells, p[..|p| - 1])
    requires forall q :: q in cells ==> !(p <= q)
    ensures Shape(cells[p := Leaf(key)]) && LeavesOf(cells[p := Leaf(key)]) == LeavesOf(cells)[p := key]
  {
    var c := cells[p := Leaf(key)];
    forall q | q in c && q != []
      ensures InnerAt(c, q[..|q| - 1])
    {
      if q != p {
        assert q[..|q| - 1] <= q;
      }
    }
  }

  /**
   * The nested dictionaries, addressed by the path from the root. Looking up a missing child
   * creates an empty dictionary, in the loader and in the decoder alike.
   */
  class Tree {
    var cells: Cells

    ghost predicate Valid()
      reads this
    {
      Shape(cells)
    }

    ghost function Leaves(): Leaves
      reads this
    {
      LeavesOf(cells)
    }

    constructor ()
      ensures Valid() && Leaves() == map[] && cells.Keys == {[]}
    {
      cells := map[[] := Inner];
    }

    method Child(path: seq<bool>, b: bool) returns (p: seq<bool>)
      requires Valid() && InnerAt(cells, path)
      modifies this
      ensures Valid() && Leaves() == old(Leaves())
      ensures p == path + [b] && p in cells
      ensures forall q :: q in cells <==> q in old(cells) || q == p
    {
      p := path + [b];
      if p !in cells {
        assert p[..|p| - 1] == path;
        AddInner(cells, p);
        cells := cells[p := Inner];
      }
    }

    /** Stores a key at the end of a path that meets no leaf and that nothing lies at or below. */
    method Insert(bits: seq<bool>, key: byte)
      requires Valid() && bits != []
      requires forall p :: p in Leaves() ==> !(p <= bits)
      requires forall p :: p in cells ==> !(bits <= p)
      modifies this
      ensures Valid() && Leaves() == old(Leaves())[bits := key]
      ensures forall p :: p in cells ==> p in old(cells) || p <= bits
    {
      hide Shape, LeavesOf, InnerAt;
      RootIsInner(cells);
      var i, node := 0, [];
      while i < |bits| - 1
        invariant 0 <= i <= |bits| - 1 && node == bits[..i]
        invariant Valid() && Leaves() == old(Leaves())
        invariant InnerAt(cells, node)
        invariant forall p :: p in cells ==> p in old(cells) || p <= bits[..i]
      {
        ghost var before := cells;
        node := Child(node, bits[i]);
        Deeper(old(cells), before, cells, bits, i);
        i := i + 1;
        assert node == bits[..i] && node <= bits;
        InnerUnlessLeaf(cells, node);
      }
      assert node + [bits[i]] == bits && bits[..|bits| - 1] == node;
      forall p | p in cells
        ensures !(bits <= p)
      {
        if p !in old(cells) {
          assert p <= bits[..i] && |p| < |bits|;
        }
      }
      AddLeaf(cells, bits, key);
      cells := cells[node + [bits[i]] := Leaf(key)];
    }
  }

  lemma RootIsInner(cells: Cells)
    requires Shape(cells)
    ensures InnerAt(cells, [])
  {
  }

  lemma InnerUnlessLeaf(cells: Cells, p: seq<bool>)
    requires p in cells && p !in LeavesOf(cells)
    ensures InnerAt(cells, p)
  {
  }

  lemma Deeper(start: Cells, before: Cells, after: Cells, bits: seq<bool>, i: nat)
    requires i < |bits|
    requires forall p :: p in before ==> p in start || p <= bits[..i]
    requires forall q :: q in after <==> q in before || q == bits[..i] + [bits[i]]
    ensures forall p :: p in after ==> p in start || p <= bits[..i + 1]
  {
    assert bits[..i] + [bits[i]] == bits[..i + 1];
    assert bits[..i] <= bits[..i + 1];
  }

  // ---------- tables ----------

  /** No code is empty, and no code is a prefix of another line's. */
  ghost predicate PrefixFreeRows(rows: seq<Row>)
  {
    && (forall i :: 0 <= i < |rows| ==> rows[i].len > 0)
    && (forall i, j :: 0 <= i < |rows| && 0 <= j < |rows| && i != j ==> !(rows[i].Code() <= rows[j].Code()))
  }

  ghost predicate HasSymbol(rows: seq<Row>, c: nat)
  {
    exists i :: 0 <= i < |rows| && rows[i].symbol == c
  }

  /** Every octet has a line, and so does the end-of-string mark, whose code is thirty ones. */
  ghost predicate FullTable(rows: seq<Row>)
  {
    && (forall i :: 0 <= i < |rows| ==> rows[i].symbol <= EOS_SYMBOL)
    && (forall i, j :: 0 <= i < |rows| && 0 <= j < |rows| && i != j ==> rows[i].symbol != rows[j].symbol)
    && (forall c :: 0 <= c <= EOS_SYMBOL ==> HasSymbol(rows, c))
    && (forall i :: 0 <= i < |rows| && rows[i].symbol == EOS_SYMBOL ==> rows[i].Code() == EOS)
  }

  /** The map holds exactly the octet lines of the table. */
  ghost predicate MapOfRows(code: CodeMap, rows: seq<Row>)
  {
    && (forall i :: 0 <= i < |rows| && rows[i].symbol != EOS_SYMBOL ==>
          rows[i].symbol < 256 && rows[i].symbol in code && code[rows[i].symbol] == rows[i].Code())
    && (forall c :: c in code ==> HasSymbol(rows, c))
  }

  /** A full prefix-free table yields a usable code, in whatever order its lines come. */
  lemma TableIsPrefixFree(rows: seq<Row>, code: CodeMap)
    requires PrefixFreeRows(rows) && FullTable(rows) && MapOfRows(code, rows)
    ensures PrefixFree(code) && Complete(code)
  {
    assert HasSymbol(rows, EOS_SYMBOL);
    var e :| 0 <= e < |rows| && rows[e].symbol == EOS_SYMBOL;
    forall a | a in code
      ensures !(code[a] <= EOS) && !(EOS <= code[a])
    {
      var i :| 0 <= i < |rows| && rows[i].symbol == a;
      assert code[a] == rows[i].Code() && EOS == rows[e].Code() && i != e;
    }
    forall a, b | a in code && b in code && a != b
      ensures !(code[a] <= code[b])
    {
      var i :| 0 <= i < |rows| && rows[i].symbol == a;
      var j :| 0 <= j < |rows| && rows[j].symbol == b;
      assert code[a] == rows[i].Code() && code[b] == rows[j].Code();
    }
    forall c: byte
      ensures c in code
    {
      assert HasSymbol(rows, c);
    }
  }

  /** What the loader has built from the lines seen so far. */
  ghost predicate Loaded(done: seq<Row>, code: CodeMap, cells: Cells)
  {
    && MapOfRows(code, done)
    && Inverse(LeavesOf(cells), code)
    && (forall p :: p in cells && p != [] ==> OnPath(done, p))
  }

  ghost predicate OnPath(done: seq<Row>, p: seq<bool>)
  {
    exists i :: 0 <= i < |done| && p <= done[i].Code()
  }

  lemma OnPathMore(done: seq<Row>, row: Row, p: seq<bool>)
    requires OnPath(done, p) || p <= row.Code()
    ensures OnPath(done + [row], p)
  {
    if OnPath(done, p) {
      var i :| 0 <= i < |done| && p <= done[i].Code();
      assert (done + [row])[i] == done[i];
    } else {
      assert (done + [row])[|done|] == row;
    }
  }

  lemma MapOfMoreRows(done: seq<Row>, row: Row, code: CodeMap)
    requires MapOfRows(code, done)
    ensures row.symbol == EOS_SYMBOL ==> MapOfRows(code, done + [row])
    ensures row.symbol < 256 && row.symbol !in code ==> MapOfRows(code[row.symbol := row.Code()], done + [row])
  {
    forall c | HasSymbol(done, c)
      ensures HasSymbol(done + [row], c)
    {
      var i :| 0 <= i < |done| && done[i].symbol == c;
      assert (done + [row])[i].symbol == c;
    }
    assert (done + [row])[|done|] == row;
  }

  /** The next code meets no leaf, and nothing lies at or below it yet. */
  lemma CodeIsFree(done: seq<Row>, row: Row, code: CodeMap, cells: Cells)
    requires PrefixFreeRows(done + [row]) && Loaded(done, code, cells)
    ensures row.Code() != []
    ensures forall p :: p in LeavesOf(cells) ==> !(p <= row.Code())
    ensures forall p :: p in cells ==> !(row.Code() <= p)
  {
    var all, n := done + [row], |done|;
    assert all[n] == row;
    forall i | 0 <= i < n
      ensures !(done[i].Code() <= row.Code()) && !(row.Code() <= done[i].Code())
    {
      assert all[i] == done[i];
    }
    forall p | p in LeavesOf(cells)
      ensures !(p <= row.Code())
    {
      var c := LeavesOf(cells)[p];
      assert HasSymbol(done, c);
      var i :| 0 <= i < n && done[i].symbol == c;
      assert p == done[i].Code();
    }
    forall p | p in cells
      ensures !(row.Code() <= p)
    {
      if p != [] {
        var i :| 0 <= i < n && p <= done[i].Code();
      }
    }
  }

  lemma LoadedMore(done: seq<Row>, row: Row, code: CodeMap, cells: Cells, cells': Cells)
    requires Loaded(done, code, cells) && row.symbol < 256 && row.symbol !in code
    requires row.Code() !in LeavesOf(cells)
    requires LeavesOf(cells') == LeavesOf(cells)[row.Code() := row.symbol]
    requires forall p :: p in cells' ==> p in cells || p <= row.Code()
    ensures Loaded(done + [row], code[row.symbol := row.Code()], cells')
  {
    MapOfMoreRows(done, row, code);
    forall p | p in cells' && p != []
      ensures OnPath(done + [row], p)
    {
      OnPathMore(done, row, p);
    }
  }

  lemma LoadedSkip(done: seq<Row>, row: Row, code: CodeMap, cells: Cells)
    requires Loaded(done, code, cells) && row.symbol == EOS_SYMBOL
    ensures Loaded(done + [row], code, cells)
  {
    MapOfMoreRows(done, row, code);
    forall p | p in cells && p != []
      ensures OnPath(done + [row], p)
    {
      OnPathMore(done, row, p);
    }
  }

  ghost predicate RepeatsSymbol(rows: seq<Row>)
  {
    exists i, j :: 0 <= i < j < |rows| && rows[i].symbol == rows[j].symbol != EOS_SYMBOL
  }

  lemma RepeatedAt(rows: seq<Row>, n: nat, code: CodeMap)
    requires n < |rows| && MapOfRows(code, rows[..n]) && rows[n].symbol in code
    requires rows[n].symbol != EOS_SYMBOL
    ensures RepeatsSymbol(rows)
  {
    assert HasSymbol(rows[..n], rows[n].symbol);
    var i :| 0 <= i < n && rows[..n][i].symbol == rows[n].symbol;
    assert rows[i].symbol == rows[n].symbol;
  }

  lemma RepeatedLater(done: seq<Row>, row: Row, code: CodeMap)
    requires MapOfRows(code, done) && !RepeatsSymbol(done)
    requires row.symbol == EOS_SYMBOL || row.symbol !in code
    ensures !RepeatsSymbol(done + [row])
  {
  }

  lemma PrefixFreePart(rows: seq<Row>, n: nat)
    requires PrefixFreeRows(rows) && n < |rows|
    ensures PrefixFreeRows(rows[..n] + [rows[n]]) && rows[..n] + [rows[n]] == rows[..n + 1]
  {
    assert rows[..n] + [rows[n]] == rows[..n + 1];
  }

  /**
   * Builds the code map and the tree line by line, skipping the end-of-string mark. A repeated
   * symbol makes the loader raise ValueError (`ok` is false).
   */
  method LoadHuffmanData(rows: seq<Row>) returns (code: CodeMap, tree: Tree, ok: bool)
    requires PrefixFreeRows(rows)
    requires forall i :: 0 <= i < |rows| ==> rows[i].symbol <= EOS_SYMBOL
    ensures fresh(tree) && tree.Valid()
    ensures ok <==> !RepeatsSymbol(rows)
    ensures ok ==> MapOfRows(code, rows) && Inverse(tree.Leaves(), code)
  {
    code, ok := map[], true;
    tree := new Tree();
    var n := 0;
    while n < |rows|
      invariant 0 <= n <= |rows|
      invariant fresh(tree) && tree.Valid()
      invariant Loaded(rows[..n], code, tree.cells) && !RepeatsSymbol(rows[..n])
    {
      var row := rows[n];
      PrefixFreePart(rows, n);
      if row.symbol == EOS_SYMBOL {
        LoadedSkip(rows[..n], row, code, tree.cells);
        RepeatedLater(rows[..n], row, code);
      } else if row.symbol in code {
        RepeatedAt(rows, n, code);
        ok := false;
        return;
      } else {
        CodeIsFree(rows[..n], row, code, tree.cells);
        ghost var before := tree.cells;
        tree.Insert(row.Code(), row.symbol);
        LoadedMore(rows[..n], row, code, before, tree.cells);
        RepeatedLater(rows[..n], row, code);
        code := code[row.symbol := row.Code()];
      }
      n := n + 1;
    }
    assert rows[..n] == rows;
  }
}
