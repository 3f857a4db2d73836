/**
 * Huffman coding of octet strings (section 5.2 of RFC 7541) for an arbitrary
 * prefix-free code whose end-of-string symbol is thirty ones.
 */
module Huffman {
  import opened Bits
  import opened HpackInt

  /** The code of each octet (`_huffman_map`). */
  type CodeMap = map<byte, seq<bool>>

  /** The leaves of the decoding tree: the path from the root, and the octet stored there. */
  type Leaves = map<seq<bool>, byte>

  function Ones(n: nat): (r: seq<bool>)
    ensures |r| == n
  {
    seq(n, _ => true)
  }

  const EOS: seq<bool> := Ones(30)

  /** No code, the end-of-string code included, is a prefix of another. */
  ghost predicate PrefixFree(code: CodeMap)
  {
    && (forall a, b :: a in code && b in code && a != b ==> !(code[a] <= code[b]))
    && (forall a :: a in code ==> !(code[a] <= EOS) && !(EOS <= code[a]))
  }

  /** The leaves are exactly the codes. */
  ghost predicate Inverse(leaves: Leaves, code: CodeMap)
  {
    && (forall c :: c in code ==> code[c] in leaves && leaves[code[c]] == c)
    && (forall p :: p in leaves ==> leaves[p] in code && code[leaves[p]] == p)
  }

  /** A usable code: every octet has one. */
  ghost predicate Complete(code: CodeMap)
  {
    forall c: byte :: c in code
  }

  ghost predicate ValidCode(code: CodeMap, leaves: Leaves)
  {
    PrefixFree(code) && Complete(code) && Inverse(leaves, code)
  }

  // ---------- writing ----------

  function CodeBits(code: CodeMap, s: bytes): seq<bool>
    requires Complete(code)
  {
    if s == [] then [] else code[s[0]] + CodeBits(code, s[1..])
  }

  /** Bits missing from the last byte. */
  function PadLength(n: nat): (p: nat)
    ensures p < 8 && (n + p) % 8 == 0
  {
    (8 - n % 8) % 8
  }

  /** The codes of the octets, then ones up to the next byte boundary. */
  function HuffmanBits(code: CodeMap, s: bytes): (r: seq<bool>)
    requires Complete(code)
    ensures |r| % 8 == 0
  {
    var b := CodeBits(code, s);
    b + Ones(PadLength(|b|))
  }

  /** No code is empty: it would be a prefix of the end-of-string code. */
  lemma {:induction false} CodeBitsAtLeast(code: CodeMap, s: bytes)
    requires PrefixFree(code) && Complete(code)
    ensures |CodeBits(code, s)| >= |s|
  {
    if s != [] {
      assert !(code[s[0]] <= EOS);
      CodeBitsAtLeast(code, s[1..]);
    }
  }

  // ---------- reading ----------

  datatype CharReading =
    | EndOfData                                // ran past the end of the data
    | NoChar(rest: seq<bool>)                  // reached the limit inside a code
    | Char(c: byte, rest: seq<bool>)

  /**
   * Walks from `path` down the tree, one bit at a time, while more than `stop` bits are unread.
   */
  function ReadChar(leaves: Leaves, rem: seq<bool>, stop: int, path: seq<bool>): (r: CharReading)
    ensures r.Char? ==> |rem| > |r.rest| >= stop
    ensures r.NoChar? ==> |rem| >= |r.rest| && (|r.rest| == stop || (r.rest == rem && |rem| <= stop))
    decreases |rem|
  {
    if |rem| <= stop then NoChar(rem)
    else if rem == [] then EndOfData
    else
      var p := path + [rem[0]];
      if p in leaves then Char(leaves[p], rem[1..]) else ReadChar(leaves, rem[1..], stop, p)
  }

  /** Octets until `stop` bits are left. */
  function ReadChars(leaves: Leaves, rem: seq<bool>, stop: int): (r: Reading<bytes>)
    ensures r.Some? ==> |r.value.1| <= |rem|
    ensures r.Some? && stop <= |rem| ==> |r.value.1| == stop
    decreases |rem|
  {
    if |rem| <= stop then Some(([], rem))
    else
      match ReadChar(leaves, rem, stop, [])
      case EndOfData => None
      case NoChar(rest) => Some(([], rest))
      case Char(c, rest) =>
        var (s, after) :- ReadChars(leaves, rest, stop);
        Some(([c] + s, after))
  }

  // ---------- reading inverts writing ----------

  /** A walk along the rest of a code ends at that code's leaf. */
  lemma {:induction false} ReadCharAlongCode(code: CodeMap, leaves: Leaves, c: byte, k: nat, rest: seq<bool>, stop: int)
    requires PrefixFree(code) && Inverse(leaves, code)
    requires c in code && k < |code[c]| && |rest| >= stop
    ensures ReadChar(leaves, code[c][k..] + rest, stop, code[c][..k]) == Char(c, rest)
    decreases |code[c]| - k
  {
    var w := code[c];
    var rem, p := w[k..] + rest, w[..k] + [w[k]];
    assert p == w[..k + 1];
    assert rem[0] == w[k] && rem[1..] == w[k + 1..] + rest;
    if k + 1 == |w| {
      assert p == w && rem[1..] == rest;
    } else {
      assert p <= w && p !in leaves;
      ReadCharAlongCode(code, leaves, c, k + 1, rest, stop);
    }
  }

  /** Walking `t` down from `path` never meets a leaf. */
  ghost predicate NoLeaf(leaves: Leaves, path: seq<bool>, t: seq<bool>)
  {
    forall k :: 0 < k <= |t| ==> path + t[..k] !in leaves
  }

  lemma NoLeafStep(leaves: Leaves, path: seq<bool>, t: seq<bool>)
    requires t != []
    ensures NoLeaf(leaves, path, t) <==> path + [t[0]] !in leaves && NoLeaf(leaves, path + [t[0]], t[1..])
  {
    var p := path + [t[0]];
    assert path + t[..1] == p;
    forall k | 0 < k <= |t[1..]|
      ensures p + t[1..][..k] == path + t[..k + 1]
    {
    }
    forall k | 1 < k <= |t|
      ensures path + t[..k] == p + t[1..][..k - 1]
    {
    }
  }

  lemma {:induction false} ReadCharWithoutLeaf(leaves: Leaves, path: seq<bool>, t: seq<bool>, rest: seq<bool>)
    requires NoLeaf(leaves, path, t)
    ensures ReadChar(leaves, t + rest, |rest|, path) == NoChar(rest)
    decreases |t|
  {
    if t == [] {
      assert t + rest == rest;
    } else {
      NoLeafStep(leaves, path, t);
      assert (t + rest)[0] == t[0] && (t + rest)[1..] == t[1..] + rest;
      ReadCharWithoutLeaf(leaves, path + [t[0]], t[1..], rest);
    }
  }

  /** At most seven padding ones never reach a leaf, because thirty of them do not. */
  lemma OnesHaveNoLeaf(code: CodeMap, leaves: Leaves, n: nat)
    requires PrefixFree(code) && Inverse(leaves, code) && n <= 30
    ensures NoLeaf(leaves, [], Ones(n))
  {
    forall k | 0 < k <= n
      ensures [] + Ones(n)[..k] !in leaves
    {
      assert [] + Ones(n)[..k] <= EOS;
    }
  }

  lemma {:induction false} ReadCharsOfCodes(code: CodeMap, leaves: Leaves, s: bytes, t: seq<bool>, rest: seq<bool>)
    requires ValidCode(code, leaves) && NoLeaf(leaves, [], t)
    ensures ReadChars(leaves, CodeBits(code, s) + t + rest, |rest|) == Some((s, rest))
  {
    var rem := CodeBits(code, s) + t + rest;
    if s == [] {
      assert rem == t + rest;
      ReadCharWithoutLeaf(leaves, [], t, rest);
    } else {
      var c, w := s[0], code[s[0]];
      assert !(w <= EOS);
      var after := CodeBits(code, s[1..]) + t + rest;
      assert rem == w + after;
      assert w[0..] == w && w[..0] == [];
      ReadCharAlongCode(code, leaves, c, 0, after, |rest|);
      ReadCharsOfCodes(code, leaves, s[1..], t, rest);
      assert s == [c] + s[1..];
    }
  }

  /** Section 5.2 of RFC 7541: a written string reads back, and the reader stops exactly at its end. */
  lemma HuffmanRoundTrip(code: CodeMap, leaves: Leaves, s: bytes, rest: seq<bool>)
    requires ValidCode(code, leaves)
    ensures ReadChars(leaves, HuffmanBits(code, s) + rest, |rest|) == Some((s, rest))
  {
    var pad := PadLength(|CodeBits(code, s)|);
    OnesHaveNoLeaf(code, leaves, pad);
    ReadCharsOfCodes(code, leaves, s, Ones(pad), rest);
  }

  /** Any beginning of any code is taken for padding, not only ones. */
  lemma BeginningOfCodeIsPadding(code: CodeMap, leaves: Leaves, s: bytes, c: byte, j: nat, rest: seq<bool>)
    requires ValidCode(code, leaves) && j < |code[c]|
    ensures ReadChars(leaves, CodeBits(code, s) + code[c][..j] + rest, |rest|) == Some((s, rest))
  {
    var t := code[c][..j];
    forall k | 0 < k <= j
      ensures [] + t[..k] !in leaves
    {
      assert [] + t[..k] == code[c][..k] && code[c][..k] <= code[c];
    }
    ReadCharsOfCodes(code, leaves, s, t, rest);
  }

  lemma ZerosBehindFive(code: CodeMap, leaves: Leaves, c: byte, d: byte)
    requires ValidCode(code, leaves) && |code[c]| == 5
    requires |code[d]| > 3 && code[d][..3] == [false, false, false]
    ensures var bits := code[c] + [false, false, false];
            ReadChars(leaves, bits, 0) == Some(([c], [])) && bits != HuffmanBits(code, [c])
  {
    hide ReadChars, PrefixFree, Inverse;
    var bits := code[c] + [false, false, false];
    OneCode(code, c);
    BeginningOfCodeIsPadding(code, leaves, [c], d, 3, []);
    assert CodeBits(code, [c]) + code[d][..3] + [] == bits;
    assert Ones(3)[0];
    assert HuffmanBits(code, [c])[5] && !bits[5];
  }

  lemma OneCode(code: CodeMap, c: byte)
    requires Complete(code)
    ensures CodeBits(code, [c]) == code[c]
  {
    assert [c][1..] == [];
    assert code[c] + [] == code[c];
  }

  // ---------- exactly which bits are accepted ----------

  lemma {:induction false} ReadCharSound(code: CodeMap, leaves: Leaves, path: seq<bool>, b: seq<bool>, rest: seq<bool>)
    requires Inverse(leaves, code)
    ensures match ReadChar(leaves, b + rest, |rest|, path)
            case EndOfData => false
            case NoChar(after) => after == rest && NoLeaf(leaves, path, b)
            case Char(c, after) =>
              var n := |b + rest| - |after|;
              c in code && n <= |b| && code[c] == path + b[..n] && after == b[n..] + rest
    decreases |b|
  {
    if b == [] {
      assert b + rest == rest;
    } else {
      var p := path + [b[0]];
      assert (b + rest)[0] == b[0] && (b + rest)[1..] == b[1..] + rest;
      if p in leaves {
        assert b[..1] == [b[0]];
      } else {
        NoLeafStep(leaves, path, b);
        ReadCharSound(code, leaves, p, b[1..], rest);
        if ReadChar(leaves, b[1..] + rest, |rest|, p).Char? {
          var n := |b + rest| - |ReadChar(leaves, b + rest, |rest|, path).rest|;
          assert p + b[1..][..n - 1] == path + b[..n] && b[1..][n - 1..] == b[n..];
        }
      }
    }
  }

  /** What follows the codes of `s` in `b`, if `b` starts with them. */
  ghost predicate Spells(code: CodeMap, leaves: Leaves, b: seq<bool>, s: bytes)
    requires Complete(code)
  {
    var w := CodeBits(code, s);
    w <= b && NoLeaf(leaves, [], b[|w|..])
  }

  lemma SpellsCons(code: CodeMap, leaves: Leaves, c: byte, t: seq<bool>, s: bytes)
    requires Complete(code) && Spells(code, leaves, t, s)
    ensures Spells(code, leaves, code[c] + t, [c] + s)
  {
    var w, b := CodeBits(code, s), code[c] + t;
    assert ([c] + s)[1..] == s;
    assert CodeBits(code, [c] + s) == code[c] + w;
    assert b == (code[c] + w) + t[|w|..];
    assert b[|code[c] + w|..] == t[|w|..];
  }

  lemma {:induction false} ReadCharsSound(code: CodeMap, leaves: Leaves, b: seq<bool>, rest: seq<bool>)
    requires ValidCode(code, leaves)
    ensures var r := ReadChars(leaves, b + rest, |rest|);
            r.Some? && r.value.1 == rest && Spells(code, leaves, b, r.value.0)
    decreases |b|
  {
    if b == [] {
      assert b + rest == rest;
    } else {
      ReadCharSound(code, leaves, [], b, rest);
      match ReadChar(leaves, b + rest, |rest|, [])
      case EndOfData =>
      case NoChar(_) =>
        assert CodeBits(code, []) == [] && b[0..] == b;
      case Char(c, after) =>
        var n := |b + rest| - |after|;
        assert code[c] == b[..n];
        ReadCharsSound(code, leaves, b[n..], rest);
        assert b == code[c] + b[n..];
        SpellsCons(code, leaves, c, b[n..], ReadChars(leaves, b[n..] + rest, |rest|).value.0);
    }
  }

  /**
   * The reader accepts every run of bits. It returns the one string whose codes the run starts
   * with and whose remaining bits complete no further code, whatever those remaining bits are:
   * the padding checks of section 5.2 of RFC 7541 are not made.
   */
  lemma ReadCharsExact(code: CodeMap, leaves: Leaves, b: seq<bool>, rest: seq<bool>, s: bytes)
    requires ValidCode(code, leaves)
    ensures ReadChars(leaves, b + rest, |rest|) == Some((s, rest)) <==> Spells(code, leaves, b, s)
  {
    ReadCharsSound(code, leaves, b, rest);
    if Spells(code, leaves, b, s) {
      var w := CodeBits(code, s);
      assert b == w + b[|w|..];
      ReadCharsOfCodes(code, leaves, s, b[|w|..], rest);
    }
  }
}
