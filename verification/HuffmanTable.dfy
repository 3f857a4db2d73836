/**
 * The code table of Appendix B of RFC 7541 (tornado_http2/hpack_huffman_data.txt). The lines
 * are listed by increasing code, so that each code starts where the one before it ends; the file
 * lists them by symbol. The loader's result does not depend on the order of the lines.
 */
module HuffmanTable {
  import opened Bits
  import opened Huffman
  import opened HuffmanTree

  const SIZE := 257

  function Lines0(k: int): Row {
    if k == 0 then Row(48, 0x0, 5) else if k == 1 then Row(49, 0x1, 5) else if k == 2 then Row(50, 0x2, 5) else
    if k == 3 then Row(97, 0x3, 5) else if k == 4 then Row(99, 0x4, 5) else if k == 5 then Row(101, 0x5, 5) else
    if k == 6 then Row(105, 0x6, 5) else if k == 7 then Row(111, 0x7, 5) else if k == 8 then Row(115, 0x8, 5) else
    if k == 9 then Row(116, 0x9, 5) else if k == 10 then Row(32, 0x14, 6) else if k == 11 then Row(37, 0x15, 6) else
    if k == 12 then Row(45, 0x16, 6) else if k == 13 then Row(46, 0x17, 6) else if k == 14 then Row(47, 0x18, 6) else
    Row(51, 0x19, 6)
  }

  function Lines1(k: int): Row {
    if k == 16 then Row(52, 0x1a, 6) else if k == 17 then Row(53, 0x1b, 6) else if k == 18 then Row(54, 0x1c, 6) else
    if k == 19 then Row(55, 0x1d, 6) else if k == 20 then Row(56, 0x1e, 6) else if k == 21 then Row(57, 0x1f, 6) else
    if k == 22 then Row(61, 0x20, 6) else if k == 23 then Row(65, 0x21, 6) else if k == 24 then Row(95, 0x22, 6) else
    if k == 25 then Row(98, 0x23, 6) else if k == 26 then Row(100, 0x24, 6) else if k == 27 then Row(102, 0x25, 6) else
    if k == 28 then Row(103, 0x26, 6) else if k == 29 then Row(104, 0x27, 6) else if k == 30 then Row(108, 0x28, 6) else
    Row(109, 0x29, 6)
  }

  function Lines2(k: int): Row {
    if k == 32 then Row(110, 0x2a, 6) else if k == 33 then Row(112, 0x2b, 6) else if k == 34 then Row(114, 0x2c, 6) else
    if k == 35 then Row(117, 0x2d, 6) else if k == 36 then Row(58, 0x5c, 7) else if k == 37 then Row(66, 0x5d, 7) else
    if k == 38 then Row(67, 0x5e, 7) else if k == 39 then Row(68, 0x5f, 7) else if k == 40 then Row(69, 0x60, 7) else
    if k == 41 then Row(70, 0x61, 7) else if k == 42 then Row(71, 0x62, 7) else if k == 43 then Row(72, 0x63, 7) else
    if k == 44 then Row(73, 0x64, 7) else if k == 45 then Row(74, 0x65, 7) else if k == 46 then Row(75, 0x66, 7) else
    Row(76, 0x67, 7)
  }

  function Lines3(k: int): Row {
    if k == 48 then Row(77, 0x68, 7) else if k == 49 then Row(78, 0x69, 7) else if k == 50 then Row(79, 0x6a, 7) else
    if k == 51 then Row(80, 0x6b, 7) else if k == 52 then Row(81, 0x6c, 7) else if k == 53 then Row(82, 0x6d, 7) else
    if k == 54 then Row(83, 0x6e, 7) else if k == 55 then Row(84, 0x6f, 7) else if k == 56 then Row(85, 0x70, 7) else
    if k == 57 then Row(86, 0x71, 7) else if k == 58 then Row(87, 0x72, 7) else if k == 59 then Row(89, 0x73, 7) else
    if k == 60 then Row(106, 0x74, 7) else if k == 61 then Row(107, 0x75, 7) else if k == 62 then Row(113, 0x76, 7) else
    Row(118, 0x77, 7)
  }

  function Lines4(k: int): Row {
    if k == 64 then Row(119, 0x78, 7) else if k == 65 then Row(120, 0x79, 7) else if k == 66 then Row(121, 0x7a, 7) else
    if k == 67 then Row(122, 0x7b, 7) else if k == 68 then Row(38, 0xf8, 8) else if k == 69 then Row(42, 0xf9, 8) else
    if k == 70 then Row(44, 0xfa, 8) else if k == 71 then Row(59, 0xfb, 8) else if k == 72 then Row(88, 0xfc, 8) else
    if k == 73 then Row(90, 0xfd, 8) else if k == 74 then Row(33, 0x3f8, 10) else
    if k == 75 then Row(34, 0x3f9, 10) else
    if k == 76 then Row(40, 0x3fa, 10) else if k == 77 then Row(41, 0x3fb, 10) else
    if k == 78 then Row(63, 0x3fc, 10) else
    Row(39, 0x7fa, 11)
  }

  function Lines5(k: int): Row {
    if k == 80 then Row(43, 0x7fb, 11) else if k == 81 then Row(124, 0x7fc, 11) else
    if k == 82 then Row(35, 0xffa, 12) else
    if k == 83 then Row(62, 0xffb, 12) else if k == 84 then Row(0, 0x1ff8, 13) else
    if k == 85 then Row(36, 0x1ff9, 13) else
    if k == 86 then Row(64, 0x1ffa, 13) else if k == 87 then Row(91, 0x1ffb, 13) else
    if k == 88 then Row(93, 0x1ffc, 13) else
    if k == 89 then Row(126, 0x1ffd, 13) else if k == 90 then Row(94, 0x3ffc, 14) else
    if k == 91 then Row(125, 0x3ffd, 14) else
    if k == 92 then Row(60, 0x7ffc, 15) else if k == 93 then Row(96, 0x7ffd, 15) else
    if k == 94 then Row(123, 0x7ffe, 15) else
    Row(92, 0x7fff0, 19)
  }

  function Lines6(k: int): Row {
    if k == 96 then Row(195, 0x7fff1, 19) else if k == 97 then Row(208, 0x7fff2, 19) else
    if k == 98 then Row(128, 0xfffe6, 20) else
    if k == 99 then Row(130, 0xfffe7, 20) else if k == 100 then Row(131, 0xfffe8, 20) else
    if k == 101 then Row(162, 0xfffe9, 20) else
    if k == 102 then Row(184, 0xfffea, 20) else if k == 103 then Row(194, 0xfffeb, 20) else
    if k == 104 then Row(224, 0xfffec, 20) else
    if k == 105 then Row(226, 0xfffed, 20) else if k == 106 then Row(153, 0x1fffdc, 21) else
    if k == 107 then Row(161, 0x1fffdd, 21) else
    if k == 108 then Row(167, 0x1fffde, 21) else if k == 109 then Row(172, 0x1fffdf, 21) else
    if k == 110 then Row(176, 0x1fffe0, 21) else
    Row(177, 0x1fffe1, 21)
  }

  function Lines7(k: int): Row {
    if k == 112 then Row(179, 0x1fffe2, 21) else if k == 113 then Row(209, 0x1fffe3, 21) else
    if k == 114 then Row(216, 0x1fffe4, 21) else
    if k == 115 then Row(217, 0x1fffe5, 21) else if k == 116 then Row(227, 0x1fffe6, 21) else
    if k == 117 then Row(229, 0x1fffe7, 21) else
    if k == 118 then Row(230, 0x1fffe8, 21) else if k == 119 then Row(129, 0x3fffd2, 22) else
    if k == 120 then Row(132, 0x3fffd3, 22) else
    if k == 121 then Row(133, 0x3fffd4, 22) else if k == 122 then Row(134, 0x3fffd5, 22) else
    if k == 123 then Row(136, 0x3fffd6, 22) else
    if k == 124 then Row(146, 0x3fffd7, 22) else if k == 125 then Row(154, 0x3fffd8, 22) else
    if k == 126 then Row(156, 0x3fffd9, 22) else
    Row(160, 0x3fffda, 22)
  }

  function Lines8(k: int): Row {
    if k == 128 then Row(163, 0x3fffdb, 22) else if k == 129 then Row(164, 0x3fffdc, 22) else
    if k == 130 then Row(169, 0x3fffdd, 22) else
    if k == 131 then Row(170, 0x3fffde, 22) else if k == 132 then Row(173, 0x3fffdf, 22) else
    if k == 133 then Row(178, 0x3fffe0, 22) else
    if k == 134 then Row(181, 0x3fffe1, 22) else if k == 135 then Row(185, 0x3fffe2, 22) else
    if k == 136 then Row(186, 0x3fffe3, 22) else
    if k == 137 then Row(187, 0x3fffe4, 22) else if k == 138 then Row(189, 0x3fffe5, 22) else
    if k == 139 then Row(190, 0x3fffe6, 22) else
    if k == 140 then Row(196, 0x3fffe7, 22) else if k == 141 then Row(198, 0x3fffe8, 22) else
    if k == 142 then Row(228, 0x3fffe9, 22) else
    Row(232, 0x3fffea, 22)
  }

  function Lines9(k: int): Row {
    if k == 144 then Row(233, 0x3fffeb, 22) else if k == 145 then Row(1, 0x7fffd8, 23) else
    if k == 146 then Row(135, 0x7fffd9, 23) else
    if k == 147 then Row(137, 0x7fffda, 23) else if k == 148 then Row(138, 0x7fffdb, 23) else
    if k == 149 then Row(139, 0x7fffdc, 23) else
    if k == 150 then Row(140, 0x7fffdd, 23) else if k == 151 then Row(141, 0x7fffde, 23) else
    if k == 152 then Row(143, 0x7fffdf, 23) else
    if k == 153 then Row(147, 0x7fffe0, 23) else if k == 154 then Row(149, 0x7fffe1, 23) else
    if k == 155 then Row(150, 0x7fffe2, 23) else
    if k == 156 then Row(151, 0x7fffe3, 23) else if k == 157 then Row(152, 0x7fffe4, 23) else
    if k == 158 then Row(155, 0x7fffe5, 23) else
    Row(157, 0x7fffe6, 23)
  }

  function Lines10(k: int): Row {
    if k == 160 then Row(158, 0x7fffe7, 23) else if k == 161 then Row(165, 0x7fffe8, 23) else
    if k == 162 then Row(166, 0x7fffe9, 23) else
    if k == 163 then Row(168, 0x7fffea, 23) else if k == 164 then Row(174, 0x7fffeb, 23) else
    if k == 165 then Row(175, 0x7fffec, 23) else
    if k == 166 then Row(180, 0x7fffed, 23) else if k == 167 then Row(182, 0x7fffee, 23) else
    if k == 168 then Row(183, 0x7fffef, 23) else
    if k == 169 then Row(188, 0x7ffff0, 23) else if k == 170 then Row(191, 0x7ffff1, 23) else
    if k == 171 then Row(197, 0x7ffff2, 23) else
    if k == 172 then Row(231, 0x7ffff3, 23) else if k == 173 then Row(239, 0x7ffff4, 23) else
    if k == 174 then Row(9, 0xffffea, 24) else
    Row(142, 0xffffeb, 24)
  }

  function Lines11(k: int): Row {
    if k == 176 then Row(144, 0xffffec, 24) else if k == 177 then Row(145, 0xffffed, 24) else
    if k == 178 then Row(148, 0xffffee, 24) else
    if k == 179 then Row(159, 0xffffef, 24) else if k == 180 then Row(171, 0xfffff0, 24) else
    if k == 181 then Row(206, 0xfffff1, 24) else
    if k == 182 then Row(215, 0xfffff2, 24) else if k == 183 then Row(225, 0xfffff3, 24) else
    if k == 184 then Row(236, 0xfffff4, 24) else
    if k == 185 then Row(237, 0xfffff5, 24) else if k == 186 then Row(199, 0x1ffffec, 25) else
    if k == 187 then Row(207, 0x1ffffed, 25) else
    if k == 188 then Row(234, 0x1ffffee, 25) else if k == 189 then Row(235, 0x1ffffef, 25) else
    if k == 190 then Row(192, 0x3ffffe0, 26) else
    Row(193, 0x3ffffe1, 26)
  }

  function Lines12(k: int): Row {
    if k == 192 then Row(200, 0x3ffffe2, 26) else if k == 193 then Row(201, 0x3ffffe3, 26) else
    if k == 194 then Row(202, 0x3ffffe4, 26) else
    if k == 195 then Row(205, 0x3ffffe5, 26) else if k == 196 then Row(210, 0x3ffffe6, 26) else
    if k == 197 then Row(213, 0x3ffffe7, 26) else
    if k == 198 then Row(218, 0x3ffffe8, 26) else if k == 199 then Row(219, 0x3ffffe9, 26) else
    if k == 200 then Row(238, 0x3ffffea, 26) else
    if k == 201 then Row(240, 0x3ffffeb, 26) else if k == 202 then Row(242, 0x3ffffec, 26) else
    if k == 203 then Row(243, 0x3ffffed, 26) else
    if k == 204 then Row(255, 0x3ffffee, 26) else if k == 205 then Row(203, 0x7ffffde, 27) else
    if k == 206 then Row(204, 0x7ffffdf, 27) else
    Row(211, 0x7ffffe0, 27)
  }

  function Lines13(k: int): Row {
    if k == 208 then Row(212, 0x7ffffe1, 27) else if k == 209 then Row(214, 0x7ffffe2, 27) else
    if k == 210 then Row(221, 0x7ffffe3, 27) else
    if k == 211 then Row(222, 0x7ffffe4, 27) else if k == 212 then Row(223, 0x7ffffe5, 27) else
    if k == 213 then Row(241, 0x7ffffe6, 27) else
    if k == 214 then Row(244, 0x7ffffe7, 27) else if k == 215 then Row(245, 0x7ffffe8, 27) else
    if k == 216 then Row(246, 0x7ffffe9, 27) else
    if k == 217 then Row(247, 0x7ffffea, 27) else if k == 218 then Row(248, 0x7ffffeb, 27) else
    if k == 219 then Row(250, 0x7ffffec, 27) else
    if k == 220 then Row(251, 0x7ffffed, 27) else if k == 221 then Row(252, 0x7ffffee, 27) else
    if k == 222 then Row(253, 0x7ffffef, 27) else
    Row(254, 0x7fffff0, 27)
  }

  function Lines14(k: int): Row {
    if k == 224 then Row(2, 0xfffffe2, 28) else if k == 225 then Row(3, 0xfffffe3, 28) else
    if k == 226 then Row(4, 0xfffffe4, 28) else
    if k == 227 then Row(5, 0xfffffe5, 28) else if k == 228 then Row(6, 0xfffffe6, 28) else
    if k == 229 then Row(7, 0xfffffe7, 28) else
    if k == 230 then Row(8, 0xfffffe8, 28) else if k == 231 then Row(11, 0xfffffe9, 28) else
    if k == 232 then Row(12, 0xfffffea, 28) else
    if k == 233 then Row(14, 0xfffffeb, 28) else if k == 234 then Row(15, 0xfffffec, 28) else
    if k == 235 then Row(16, 0xfffffed, 28) else
    if k == 236 then Row(17, 0xfffffee, 28) else if k == 237 then Row(18, 0xfffffef, 28) else
    if k == 238 then Row(19, 0xffffff0, 28) else
    Row(20, 0xffffff1, 28)
  }

  function Lines15(k: int): Row {
    if k == 240 then Row(21, 0xffffff2, 28) else if k == 241 then Row(23, 0xffffff3, 28) else
    if k == 242 then Row(24, 0xffffff4, 28) else
    if k == 243 then Row(25, 0xffffff5, 28) else if k == 244 then Row(26, 0xffffff6, 28) else
    if k == 245 then Row(27, 0xffffff7, 28) else
    if k == 246 then Row(28, 0xffffff8, 28) else if k == 247 then Row(29, 0xffffff9, 28) else
    if k == 248 then Row(30, 0xffffffa, 28) else
    if k == 249 then Row(31, 0xffffffb, 28) else if k == 250 then Row(127, 0xffffffc, 28) else
    if k == 251 then Row(220, 0xffffffd, 28) else
    if k == 252 then Row(249, 0xffffffe, 28) else if k == 253 then Row(10, 0x3ffffffc, 30) else
    if k == 254 then Row(13, 0x3ffffffd, 30) else
    Row(22, 0x3ffffffe, 30)
  }

  function Lines16(k: int): Row {
    Row(256, 0x3fffffff, 30)
  }

  function Line(k: int): Row {
    if k < 16 then Lines0(k) else
    if k < 32 then Lines1(k) else
    if k < 48 then Lines2(k) else
    if k < 64 then Lines3(k) else
    if k < 80 then Lines4(k) else
    if k < 96 then Lines5(k) else
    if k < 112 then Lines6(k) else
    if k < 128 then Lines7(k) else
    if k < 144 then Lines8(k) else
    if k < 160 then Lines9(k) else
    if k < 176 then Lines10(k) else
    if k < 192 then Lines11(k) else
    if k < 208 then Lines12(k) else
    if k < 224 then Lines13(k) else
    if k < 240 then Lines14(k) else
    if k < 256 then Lines15(k) else
    Lines16(k)
  }

  const ROWS: seq<Row> := seq(SIZE, k => Line(k))

  // ---------- facts read off the table ----------

  /** The code of b starts where the code of a ends; among codes of one length the smaller symbol comes first. */
  predicate Follows(a: Row, b: Row)
  {
    && 0 < a.len <= b.len <= 30
    && (a.len == b.len ==> a.symbol < b.symbol)
    && b.code == if a.len == b.len then a.code + 1 else (a.code + 1) * Pow2(b.len - a.len)
  }

  predicate Adjacent(k: int)
  {
    Follows(Line(k), Line(k + 1))
  }

  lemma Adjacent0(k: int)
    requires 0 <= k < 16
    ensures Adjacent(k)
  {
    assert Adjacent(0) && Adjacent(1) && Adjacent(2) && Adjacent(3) && Adjacent(4)
           && Adjacent(5) && Adjacent(6) && Adjacent(7) && Adjacent(8) && Adjacent(9)
           && Adjacent(10) && Adjacent(11) && Adjacent(12) && Adjacent(13) && Adjacent(14)
           && Adjacent(15);
  }

  lemma Adjacent1(k: int)
    requires 16 <= k < 32
    ensures Adjacent(k)
  {
    assert Adjacent(16) && Adjacent(17) && Adjacent(18) && Adjacent(19) && Adjacent(20)
           && Adjacent(21) && Adjacent(22) && Adjacent(23) && Adjacent(24) && Adjacent(25)
           && Adjacent(26) && Adjacent(27) && Adjacent(28) && Adjacent(29) && Adjacent(30)
           && Adjacent(31);
  }

  lemma Adjacent2(k: int)
    requires 32 <= k < 48
    ensures Adjacent(k)
  {
    assert Adjacent(32) && Adjacent(33) && Adjacent(34) && Adjacent(35) && Adjacent(36)
           && Adjacent(37) && Adjacent(38) && Adjacent(39) && Adjacent(40) && Adjacent(41)
           && Adjacent(42) && Adjacent(43) && Adjacent(44) && Adjacent(45) && Adjacent(46)
           && Adjacent(47);
  }

  lemma Adjacent3(k: int)
    requires 48 <= k < 64
    ensures Adjacent(k)
  {
    assert Adjacent(48) && Adjacent(49) && Adjacent(50) && Adjacent(51) && Adjacent(52)
           && Adjacent(53) && Adjacent(54) && Adjacent(55) && Adjacent(56) && Adjacent(57)
           && Adjacent(58) && Adjacent(59) && Adjacent(60) && Adjacent(61) && Adjacent(62)
           && Adjacent(63);
  }

  lemma Adjacent4(k: int)
    requires 64 <= k < 80
    ensures Adjacent(k)
  {
    assert Adjacent(64) && Adjacent(65) && Adjacent(66) && Adjacent(67) && Adjacent(68)
           && Adjacent(69) && Adjacent(70) && Adjacent(71) && Adjacent(72) && Adjacent(73)
           && Adjacent(74) && Adjacent(75) && Adjacent(76) && Adjacent(77) && Adjacent(78)
           && Adjacent(79);
  }

  lemma Adjacent5(k: int)
    requires 80 <= k < 96
    ensures Adjacent(k)
  {
    assert Adjacent(80) && Adjacent(81) && Adjacent(82) && Adjacent(83) && Adjacent(84)
           && Adjacent(85) && Adjacent(86) && Adjacent(87) && Adjacent(88) && Adjacent(89)
           && Adjacent(90) && Adjacent(91) && Adjacent(92) && Adjacent(93) && Adjacent(94)
           && Adjacent(95);
  }

  lemma Adjacent6(k: int)
    requires 96 <= k < 112
    ensures Adjacent(k)
  {
    assert Adjacent(96) && Adjacent(97) && Adjacent(98) && Adjacent(99) && Adjacent(100)
           && Adjacent(101) && Adjacent(102) && Adjacent(103) && Adjacent(104) && Adjacent(105)
           && Adjacent(106) && Adjacent(107) && Adjacent(108) && Adjacent(109) && Adjacent(110)
           && Adjacent(111);
  }

  lemma Adjacent7(k: int)
    requires 112 <= k < 128
    ensures Adjacent(k)
  {
    assert Adjacent(112) && Adjacent(113) && Adjacent(114) && Adjacent(115) && Adjacent(116)
           && Adjacent(117) && Adjacent(118) && Adjacent(119) && Adjacent(120) && Adjacent(121)
           && Adjacent(122) && Adjacent(123) && Adjacent(124) && Adjacent(125) && Adjacent(126)
           && Adjacent(127);
  }

  lemma Adjacent8(k: int)
    requires 128 <= k < 144
    ensures Adjacent(k)
  {
    assert Adjacent(128) && Adjacent(129) && Adjacent(130) && Adjacent(131) && Adjacent(132)
           && Adjacent(133) && Adjacent(134) && Adjacent(135) && Adjacent(136) && Adjacent(137)
           && Adjacent(138) && Adjacent(139) && Adjacent(140) && Adjacent(141) && Adjacent(142)
           && Adjacent(143);
  }

  lemma Adjacent9(k: int)
    requires 144 <= k < 160
    ensures Adjacent(k)
  {
    assert Adjacent(144) && Adjacent(145) && Adjacent(146) && Adjacent(147) && Adjacent(148)
           && Adjacent(149) && Adjacent(150) && Adjacent(151) && Adjacent(152) && Adjacent(153)
           && Adjacent(154) && Adjacent(155) && Adjacent(156) && Adjacent(157) && Adjacent(158)
           && Adjacent(159);
  }

  lemma Adjacent10(k: int)
    requires 160 <= k < 176
    ensures Adjacent(k)
  {
    assert Adjacent(160) && Adjacent(161) && Adjacent(162) && Adjacent(163) && Adjacent(164)
           && Adjacent(165) && Adjacent(166) && Adjacent(167) && Adjacent(168) && Adjacent(169)
           && Adjacent(170) && Adjacent(171) && Adjacent(172) && Adjacent(173) && Adjacent(174)
           && Adjacent(175);
  }

  lemma Adjacent11(k: int)
    requires 176 <= k < 192
    ensures Adjacent(k)
  {
    assert Adjacent(176) && Adjacent(177) && Adjacent(178) && Adjacent(179) && Adjacent(180)
           && Adjacent(181) && Adjacent(182) && Adjacent(183) && Adjacent(184) && Adjacent(185)
           && Adjacent(186) && Adjacent(187) && Adjacent(188) && Adjacent(189) && Adjacent(190)
           && Adjacent(191);
  }

  lemma Adjacent12(k: int)
    requires 192 <= k < 208
    ensures Adjacent(k)
  {
    assert Adjacent(192) && Adjacent(193) && Adjacent(194) && Adjacent(195) && Adjacent(196)
           && Adjacent(197) && Adjacent(198) && Adjacent(199) && Adjacent(200) && Adjacent(201)
           && Adjacent(202) && Adjacent(203) && Adjacent(204) && Adjacent(205) && Adjacent(206)
           && Adjacent(207);
  }

  lemma Adjacent13(k: int)
    requires 208 <= k < 224
    ensures Adjacent(k)
  {
    assert Adjacent(208) && Adjacent(209) && Adjacent(210) && Adjacent(211) && Adjacent(212)
           && Adjacent(213) && Adjacent(214) && Adjacent(215) && Adjacent(216) && Adjacent(217)
           && Adjacent(218) && Adjacent(219) && Adjacent(220) && Adjacent(221) && Adjacent(222)
           && Adjacent(223);
  }

  lemma Adjacent14(k: int)
    requires 224 <= k < 240
    ensures Adjacent(k)
  {
    assert Adjacent(224) && Adjacent(225) && Adjacent(226) && Adjacent(227) && Adjacent(228)
           && Adjacent(229) && Adjacent(230) && Adjacent(231) && Adjacent(232) && Adjacent(233)
           && Adjacent(234) && Adjacent(235) && Adjacent(236) && Adjacent(237) && Adjacent(238)
           && Adjacent(239);
  }

  lemma Adjacent15(k: int)
    requires 240 <= k < 248
    ensures Adjacent(k)
  {
    assert Adjacent(240) && Adjacent(241) && Adjacent(242) && Adjacent(243) && Adjacent(244)
           && Adjacent(245) && Adjacent(246) && Adjacent(247);
  }

  lemma Adjacent16(k: int)
    requires 248 <= k < 256
    ensures Adjacent(k)
  {
    assert Adjacent(248) && Adjacent(249) && Adjacent(250) && Adjacent(251) && Adjacent(252)
           && Adjacent(253) && Adjacent(254) && Adjacent(255);
  }

  lemma AllAdjacent(k: int)
    requires 0 <= k < 256
    ensures Adjacent(k)
  {
    if k < 16 { Adjacent0(k); }
    else if k < 32 { Adjacent1(k); }
    else if k < 48 { Adjacent2(k); }
    else if k < 64 { Adjacent3(k); }
    else if k < 80 { Adjacent4(k); }
    else if k < 96 { Adjacent5(k); }
    else if k < 112 { Adjacent6(k); }
    else if k < 128 { Adjacent7(k); }
    else if k < 144 { Adjacent8(k); }
    else if k < 160 { Adjacent9(k); }
    else if k < 176 { Adjacent10(k); }
    else if k < 192 { Adjacent11(k); }
    else if k < 208 { Adjacent12(k); }
    else if k < 224 { Adjacent13(k); }
    else if k < 240 { Adjacent14(k); }
    else if k < 248 { Adjacent15(k); }
    else { Adjacent16(k); }
  }

  /** Lines are ordered by length and then by symbol: the code is canonical. */
  lemma {:induction false} Canonical(j: int, k: int)
    requires 0 <= j < k < SIZE
    ensures var a, b := Line(j), Line(k); a.len < b.len || (a.len == b.len && a.symbol < b.symbol)
    decreases k
  {
    hide Line;
    AllAdjacent(k - 1);
    if j < k - 1 {
      Canonical(j, k - 1);
    }
  }

  predicate Listed(c: int)
  {
    exists k :: 0 <= k < SIZE && Line(k).symbol == c
  }

  lemma Listed0(c: int)
    requires 0 <= c < 16
    ensures Listed(c)
  {
    assert Line(84).symbol == 0 && Line(145).symbol == 1 && Line(224).symbol == 2 && Line(225).symbol == 3
           && Line(226).symbol == 4 && Line(227).symbol == 5 && Line(228).symbol == 6 && Line(229).symbol == 7
           && Line(230).symbol == 8 && Line(174).symbol == 9 && Line(253).symbol == 10 && Line(231).symbol == 11
           && Line(232).symbol == 12 && Line(254).symbol == 13 && Line(233).symbol == 14 && Line(234).symbol == 15;
  }

  lemma Listed1(c: int)
    requires 16 <= c < 32
    ensures Listed(c)
  {
    assert Line(235).symbol == 16 && Line(236).symbol == 17 && Line(237).symbol == 18 && Line(238).symbol == 19
           && Line(239).symbol == 20 && Line(240).symbol == 21 && Line(255).symbol == 22 && Line(241).symbol == 23
           && Line(242).symbol == 24 && Line(243).symbol == 25 && Line(244).symbol == 26 && Line(245).symbol == 27
           && Line(246).symbol == 28 && Line(247).symbol == 29 && Line(248).symbol == 30 && Line(249).symbol == 31;
  }

  lemma Listed2(c: int)
    requires 32 <= c < 48
    ensures Listed(c)
  {
    assert Line(10).symbol == 32 && Line(74).symbol == 33 && Line(75).symbol == 34 && Line(82).symbol == 35
           && Line(85).symbol == 36 && Line(11).symbol == 37 && Line(68).symbol == 38 && Line(79).symbol == 39
           && Line(76).symbol == 40 && Line(77).symbol == 41 && Line(69).symbol == 42 && Line(80).symbol == 43
           && Line(70).symbol == 44 && Line(12).symbol == 45 && Line(13).symbol == 46 && Line(14).symbol == 47;
  }

  lemma Listed3(c: int)
    requires 48 <= c < 64
    ensures Listed(c)
  {
    assert Line(0).symbol == 48 && Line(1).symbol == 49 && Line(2).symbol == 50 && Line(15).symbol == 51
           && Line(16).symbol == 52 && Line(17).symbol == 53 && Line(18).symbol == 54 && Line(19).symbol == 55
           && Line(20).symbol == 56 && Line(21).symbol == 57 && Line(36).symbol == 58 && Line(71).symbol == 59
           && Line(92).symbol == 60 && Line(22).symbol == 61 && Line(83).symbol == 62 && Line(78).symbol == 63;
  }

  lemma Listed4(c: int)
    requires 64 <= c < 80
    ensures Listed(c)
  {
    assert Line(86).symbol == 64 && Line(23).symbol == 65 && Line(37).symbol == 66 && Line(38).symbol == 67
           && Line(39).symbol == 68 && Line(40).symbol == 69 && Line(41).symbol == 70 && Line(42).symbol == 71
           && Line(43).symbol == 72 && Line(44).symbol == 73 && Line(45).symbol == 74 && Line(46).symbol == 75
           && Line(47).symbol == 76 && Line(48).symbol == 77 && Line(49).symbol == 78 && Line(50).symbol == 79;
  }

  lemma Listed5(c: int)
    requires 80 <= c < 96
    ensures Listed(c)
  {
    assert Line(51).symbol == 80 && Line(52).symbol == 81 && Line(53).symbol == 82 && Line(54).symbol == 83
           && Line(55).symbol == 84 && Line(56).symbol == 85 && Line(57).symbol == 86 && Line(58).symbol == 87
           && Line(72).symbol == 88 && Line(59).symbol == 89 && Line(73).symbol == 90 && Line(87).symbol == 91
           && Line(95).symbol == 92 && Line(88).symbol == 93 && Line(90).symbol == 94 && Line(24).symbol == 95;
  }

  lemma Listed6(c: int)
    requires 96 <= c < 112
    ensures Listed(c)
  {
    assert Line(93).symbol == 96 && Line(3).symbol == 97 && Line(25).symbol == 98 && Line(4).symbol == 99
           && Line(26).symbol == 100 && Line(5).symbol == 101 && Line(27).symbol == 102 && Line(28).symbol == 103
           && Line(29).symbol == 104 && Line(6).symbol == 105 && Line(60).symbol == 106 && Line(61).symbol == 107
           && Line(30).symbol == 108 && Line(31).symbol == 109 && Line(32).symbol == 110 && Line(7).symbol == 111;
  }

  lemma Listed7(c: int)
    requires 112 <= c < 128
    ensures Listed(c)
  {
    assert Line(33).symbol == 112 && Line(62).symbol == 113 && Line(34).symbol == 114 && Line(8).symbol == 115
           && Line(9).symbol == 116 && Line(35).symbol == 117 && Line(63).symbol == 118 && Line(64).symbol == 119
           && Line(65).symbol == 120 && Line(66).symbol == 121 && Line(67).symbol == 122 && Line(94).symbol == 123
           && Line(81).symbol == 124 && Line(91).symbol == 125 && Line(89).symbol == 126 && Line(250).symbol == 127;
  }

  lemma Listed8(c: int)
    requires 128 <= c < 144
    ensures Listed(c)
  {
    assert Line(98).symbol == 128 && Line(119).symbol == 129 && Line(99).symbol == 130 && Line(100).symbol == 131
           && Line(120).symbol == 132 && Line(121).symbol == 133 && Line(122).symbol == 134 && Line(146).symbol == 135
           && Line(123).symbol == 136 && Line(147).symbol == 137 && Line(148).symbol == 138 && Line(149).symbol == 139
           && Line(150).symbol == 140 && Line(151).symbol == 141 && Line(175).symbol == 142 && Line(152).symbol == 143;
  }

  lemma Listed9(c: int)
    requires 144 <= c < 160
    ensures Listed(c)
  {
    assert Line(176).symbol == 144 && Line(177).symbol == 145 && Line(124).symbol == 146 && Line(153).symbol == 147
           && Line(178).symbol == 148 && Line(154).symbol == 149 && Line(155).symbol == 150 && Line(156).symbol == 151
           && Line(157).symbol == 152 && Line(106).symbol == 153 && Line(125).symbol == 154 && Line(158).symbol == 155
           && Line(126).symbol == 156 && Line(159).symbol == 157 && Line(160).symbol == 158 && Line(179).symbol == 159;
  }

  lemma Listed10(c: int)
    requires 160 <= c < 176
    ensures Listed(c)
  {
    assert Line(127).symbol == 160 && Line(107).symbol == 161 && Line(101).symbol == 162 && Line(128).symbol == 163
           && Line(129).symbol == 164 && Line(161).symbol == 165 && Line(162).symbol == 166 && Line(108).symbol == 167
           && Line(163).symbol == 168 && Line(130).symbol == 169 && Line(131).symbol == 170 && Line(180).symbol == 171
           && Line(109).symbol == 172 && Line(132).symbol == 173 && Line(164).symbol == 174 && Line(165).symbol == 175;
  }

  lemma Listed11(c: int)
    requires 176 <= c < 192
    ensures Listed(c)
  {
    assert Line(110).symbol == 176 && Line(111).symbol == 177 && Line(133).symbol == 178 && Line(112).symbol == 179
           && Line(166).symbol == 180 && Line(134).symbol == 181 && Line(167).symbol == 182 && Line(168).symbol == 183
           && Line(102).symbol == 184 && Line(135).symbol == 185 && Line(136).symbol == 186 && Line(137).symbol == 187
           && Line(169).symbol == 188 && Line(138).symbol == 189 && Line(139).symbol == 190 && Line(170).symbol == 191;
  }

  lemma Listed12(c: int)
    requires 192 <= c < 208
    ensures Listed(c)
  {
    assert Line(190).symbol == 192 && Line(191).symbol == 193 && Line(103).symbol == 194 && Line(96).symbol == 195
           && Line(140).symbol == 196 && Line(171).symbol == 197 && Line(141).symbol == 198 && Line(186).symbol == 199
           && Line(192).symbol == 200 && Line(193).symbol == 201 && Line(194).symbol == 202 && Line(205).symbol == 203
           && Line(206).symbol == 204 && Line(195).symbol == 205 && Line(181).symbol == 206 && Line(187).symbol == 207;
  }

  lemma Listed13(c: int)
    requires 208 <= c < 224
    ensures Listed(c)
  {
    assert Line(97).symbol == 208 && Line(113).symbol == 209 && Line(196).symbol == 210 && Line(207).symbol == 211
           && Line(208).symbol == 212 && Line(197).symbol == 213 && Line(209).symbol == 214 && Line(182).symbol == 215
           && Line(114).symbol == 216 && Line(115).symbol == 217 && Line(198).symbol == 218 && Line(199).symbol == 219
           && Line(251).symbol == 220 && Line(210).symbol == 221 && Line(211).symbol == 222 && Line(212).symbol == 223;
  }

  lemma Listed14(c: int)
    requires 224 <= c < 240
    ensures Listed(c)
  {
    assert Line(104).symbol == 224 && Line(183).symbol == 225 && Line(105).symbol == 226 && Line(116).symbol == 227
           && Line(142).symbol == 228 && Line(117).symbol == 229 && Line(118).symbol == 230 && Line(172).symbol == 231
           && Line(143).symbol == 232 && Line(144).symbol == 233 && Line(188).symbol == 234 && Line(189).symbol == 235
           && Line(184).symbol == 236 && Line(185).symbol == 237 && Line(200).symbol == 238 && Line(173).symbol == 239;
  }

  lemma Listed15(c: int)
    requires 240 <= c < 256
    ensures Listed(c)
  {
    assert Line(201).symbol == 240 && Line(213).symbol == 241 && Line(202).symbol == 242 && Line(203).symbol == 243
           && Line(214).symbol == 244 && Line(215).symbol == 245 && Line(216).symbol == 246 && Line(217).symbol == 247
           && Line(218).symbol == 248 && Line(252).symbol == 249 && Line(219).symbol == 250 && Line(220).symbol == 251
           && Line(221).symbol == 252 && Line(222).symbol == 253 && Line(223).symbol == 254 && Line(204).symbol == 255;
  }

  lemma Listed16(c: int)
    requires 256 <= c < 257
    ensures Listed(c)
  {
    assert Line(256).symbol == 256;
  }

  lemma AllListed(c: int)
    requires 0 <= c <= EOS_SYMBOL
    ensures HasSymbol(ROWS, c)
  {
    if c < 16 { Listed0(c); }
    else if c < 32 { Listed1(c); }
    else if c < 48 { Listed2(c); }
    else if c < 64 { Listed3(c); }
    else if c < 80 { Listed4(c); }
    else if c < 96 { Listed5(c); }
    else if c < 112 { Listed6(c); }
    else if c < 128 { Listed7(c); }
    else if c < 144 { Listed8(c); }
    else if c < 160 { Listed9(c); }
    else if c < 176 { Listed10(c); }
    else if c < 192 { Listed11(c); }
    else if c < 208 { Listed12(c); }
    else if c < 224 { Listed13(c); }
    else if c < 240 { Listed14(c); }
    else if c < 256 { Listed15(c); }
    else { Listed16(c); }
    var k :| 0 <= k < SIZE && Line(k).symbol == c;
    assert ROWS[k].symbol == c;
  }

  // ---------- codes as adjacent intervals of thirty-bit words ----------

  function Start(r: Row): int
    requires r.len <= 30
  {
    r.code * Pow2(30 - r.len)
  }

  function End(r: Row): int
    requires r.len <= 30
  {
    (r.code + 1) * Pow2(30 - r.len)
  }

  lemma EndIsNextStart(a: Row, b: Row)
    requires Follows(a, b)
    ensures End(a) == Start(b)
  {
    Pow2Add(b.len - a.len, 30 - b.len);
    MulAssoc(a.code + 1, Pow2(b.len - a.len), Pow2(30 - b.len));
  }

  lemma MulAssoc(x: int, y: int, z: int)
    ensures x * (y * z) == x * y * z
  {
  }

  lemma StartBeforeEnd(r: Row)
    requires r.len <= 30
    ensures Start(r) < End(r)
  {
    assert End(r) == Start(r) + Pow2(30 - r.len) by {
      Distribute(r.code, Pow2(30 - r.len));
    }
  }

  lemma Distribute(x: int, y: int)
    ensures (x + 1) * y == x * y + y
  {
  }

  lemma LengthOk(k: int)
    requires 0 <= k < SIZE
    ensures 0 < Line(k).len <= 30
  {
    if k < 256 {
      AllAdjacent(k);
    } else {
      AllAdjacent(255);
    }
  }

  lemma {:induction false} Increasing(j: int, k: int)
    requires 0 <= j < k < SIZE
    ensures 0 < Line(j).len <= Line(k).len <= 30
    ensures End(Line(j)) <= Start(Line(k))
    decreases k
  {
    AllAdjacent(k - 1);
    EndIsNextStart(Line(k - 1), Line(k));
    if j < k - 1 {
      Increasing(j, k - 1);
      StartBeforeEnd(Line(k - 1));
    }
  }

  lemma EndOfTable(k: int)
    requires 0 <= k < SIZE
    ensures 0 < Line(k).len <= 30 && End(Line(k)) <= Pow2(30)
  {
    LengthOk(k);
    Pow2Values();
    Pow2Add(8, 8);
    Pow2Add(16, 8);
    Pow2Add(24, 6);
    assert Line(256) == Row(256, 0x3fffffff, 30);
    assert End(Line(256)) == 0x40000000 == Pow2(30);
    if k < 256 {
      Increasing(k, 256);
      StartBeforeEnd(Line(256));
    }
  }

  /** Every code fits in its length. */
  lemma CodeFits(k: int)
    requires 0 <= k < SIZE
    ensures 0 < Line(k).len <= 30 && Line(k).code < Pow2(Line(k).len)
  {
    EndOfTable(k);
    IntervalFits(Line(k));
  }

  lemma IntervalFits(r: Row)
    requires 0 < r.len <= 30 && End(r) <= Pow2(30)
    ensures r.code < Pow2(r.len)
  {
    var p, q := Pow2(r.len), Pow2(30 - r.len);
    Pow2Add(r.len, 30 - r.len);
    if r.code >= p {
      MulMonotone(p + 1, r.code + 1, q);
      Distribute(p, q);
    }
  }

  lemma MulMonotone(x: int, y: int, z: nat)
    requires x <= y
    ensures x * z <= y * z
  {
  }

  /** If one code is a prefix of another, the interval of the longer one lies inside. */
  lemma PrefixMeansInside(a: Row, b: Row)
    requires 0 < a.len <= 30 && a.code < Pow2(a.len)
    requires 0 < b.len <= 30 && b.code < Pow2(b.len)
    requires a.Code() <= b.Code()
    ensures a.len <= b.len && Start(a) <= Start(b) < End(a)
  {
    PrefixIsQuotient(a, b);
    var d, q, w := b.len - a.len, Pow2(b.len - a.len), Pow2(30 - b.len);
    Scale(b.code, a.code, q, w);
    Pow2Add(d, 30 - b.len);
    MulAssoc(a.code, q, w);
    MulAssoc(a.code + 1, q, w);
  }

  lemma PrefixIsQuotient(a: Row, b: Row)
    requires a.code < Pow2(a.len) && b.code < Pow2(b.len)
    requires a.Code() <= b.Code()
    ensures a.len <= b.len && a.code == b.code / Pow2(b.len - a.len)
  {
    hide ToBits, Pow2;
    var d := b.len - a.len;
    var q := b.code / Pow2(d);
    ToBitsSplit(b.code, b.len, d);
    assert b.len - d == a.len;
    Pow2Add(a.len, d);
    QuotientFits(b.code, Pow2(a.len), Pow2(d));
    SameBits(a.code, q, a.len);
  }

  lemma SameBits(v: nat, w: nat, n: nat)
    requires v < Pow2(n) && w < Pow2(n) && ToBits(v, n) == ToBits(w, n)
    ensures v == w
  {
    FromToBits(v, n);
    FromToBits(w, n);
  }

  lemma QuotientFits(v: nat, p: nat, q: nat)
    requires q > 0 && v < p * q
    ensures v / q < p
  {
    if v / q >= p {
      MulMonotone(p, v / q, q);
    }
  }

  lemma Scale(v: nat, q: nat, d: nat, w: nat)
    requires d > 0 && w > 0 && v / d == q
    ensures q * d * w <= v * w < (q + 1) * d * w
  {
    assert q * d <= v < (q + 1) * d;
    MulMonotone(q * d, v, w);
    MulMonotone(v + 1, (q + 1) * d, w);
    Distribute(v, w);
  }

  // ---------- the table is prefix-free and complete ----------

  lemma CodesApart(j: int, k: int)
    requires 0 <= j < k < SIZE
    ensures !(Line(j).Code() <= Line(k).Code()) && !(Line(k).Code() <= Line(j).Code())
  {
    CodeFits(j);
    CodeFits(k);
    Increasing(j, k);
    StartBeforeEnd(Line(k));
    if Line(j).Code() <= Line(k).Code() {
      PrefixMeansInside(Line(j), Line(k));
    }
    if Line(k).Code() <= Line(j).Code() {
      PrefixMeansInside(Line(k), Line(j));
      StartBeforeEnd(Line(j));
    }
  }

  lemma TableIsFree()
    ensures PrefixFreeRows(ROWS)
  {
    forall i | 0 <= i < SIZE
      ensures ROWS[i].len > 0
    {
      CodeFits(i);
    }
    forall i, j | 0 <= i < SIZE && 0 <= j < SIZE && i != j
      ensures !(ROWS[i].Code() <= ROWS[j].Code())
    {
      if i < j {
        CodesApart(i, j);
      } else {
        CodesApart(j, i);
      }
    }
  }

  /** As many lines as symbols, and every symbol listed: no symbol is listed twice. */
  lemma SymbolsDistinct()
    ensures forall i, j :: 0 <= i < SIZE && 0 <= j < SIZE && i != j ==> ROWS[i].symbol != ROWS[j].symbol
  {
    forall i, j | 0 <= i < SIZE && 0 <= j < SIZE && i != j
      ensures ROWS[i].symbol != ROWS[j].symbol
    {
      if ROWS[i].symbol == ROWS[j].symbol {
        var others := ROWS[..j] + ROWS[j + 1..];
        forall c | 0 <= c < SIZE
          ensures HasSymbol(others, c)
        {
          AllListed(c);
          var k :| 0 <= k < SIZE && ROWS[k].symbol == c;
          var m := if k == j then i else k;
          assert others[if m < j then m else m - 1] == ROWS[m];
        }
        TooFewLines(others, SIZE);
        assert false;
      }
    }
  }

  lemma {:induction false} TooFewLines(rows: seq<Row>, n: nat)
    requires forall c :: 0 <= c < n ==> HasSymbol(rows, c)
    ensures |rows| >= n
  {
    if n > 0 {
      assert HasSymbol(rows, n - 1);
      var k :| 0 <= k < |rows| && rows[k].symbol == n - 1;
      var others := rows[..k] + rows[k + 1..];
      forall c | 0 <= c < n - 1
        ensures HasSymbol(others, c)
      {
        assert HasSymbol(rows, c);
        var i :| 0 <= i < |rows| && rows[i].symbol == c;
        assert others[if i < k then i else i - 1] == rows[i];
      }
      TooFewLines(others, n - 1);
    }
  }

  lemma LastLineIsEos()
    ensures ROWS[256].symbol == EOS_SYMBOL && ROWS[256].Code() == EOS
  {
    AllOnes(30);
    Pow2Values();
    Pow2Add(8, 8);
    Pow2Add(16, 8);
    Pow2Add(24, 6);
    assert Line(256) == Row(256, 0x3fffffff, 30);
  }

  lemma {:induction false} AllOnes(n: nat)
    ensures ToBits(Pow2(n) - 1, n) == Ones(n)
  {
    if n > 0 {
      AllOnes(n - 1);
      assert (Pow2(n) - 1) / 2 == Pow2(n - 1) - 1;
      assert Ones(n) == Ones(n - 1) + [true];
    }
  }

  /** The table of Appendix B has a line for every octet and is prefix-free, its end-of-string code included. */
  lemma TableIsFull()
    ensures FullTable(ROWS) && !RepeatsSymbol(ROWS) && PrefixFreeRows(ROWS)
  {
    TableIsFree();
    SymbolsDistinct();
    LastLineIsEos();
    forall c | 0 <= c <= EOS_SYMBOL
      ensures HasSymbol(ROWS, c)
    {
      AllListed(c);
    }
    forall i | 0 <= i < SIZE
      ensures ROWS[i].symbol <= EOS_SYMBOL
    {
      SymbolInRange(i);
    }
  }

  lemma SymbolInRange(i: int)
    requires 0 <= i < SIZE
    ensures ROWS[i].symbol <= EOS_SYMBOL
  {
    if ROWS[i].symbol > EOS_SYMBOL {
      var others := ROWS[..i] + ROWS[i + 1..];
      forall c | 0 <= c < SIZE
        ensures HasSymbol(others, c)
      {
        AllListed(c);
        var k :| 0 <= k < SIZE && ROWS[k].symbol == c;
        assert others[if k < i then k else k - 1] == ROWS[k];
      }
      TooFewLines(others, SIZE);
      assert false;
    }
  }

  /** Loading the table gives a usable code and a tree whose leaves are exactly its codes. */
  method LoadTable() returns (code: CodeMap, tree: Tree)
    ensures fresh(tree) && tree.Valid() && ValidCode(code, tree.Leaves())
  {
    TableIsFull();
    var ok;
    code, tree, ok := LoadHuffmanData(ROWS);
    TableIsPrefixFree(ROWS, code);
  }

  /** With the published table, three zeros behind the code of 'a' are taken for padding, which must be ones. */
  lemma ZerosAreTakenForPadding(code: CodeMap, leaves: Leaves)
    requires ValidCode(code, leaves) && MapOfRows(code, ROWS)
    ensures var bits := code[97] + [false, false, false];
            ReadChars(leaves, bits, 0) == Some(([97], [])) && bits != HuffmanBits(code, [97])
  {
    hide MapOfRows;
    TwoCodes(code);
    ZerosBehindFive(code, leaves, 97, 48);
  }

  lemma TwoCodes(code: CodeMap)
    requires Complete(code) && MapOfRows(code, ROWS)
    ensures |code[97]| == 5 && |code[48]| == 5 && code[48][..3] == [false, false, false]
  {
    assert Line(0) == Row(48, 0x0, 5) && Line(3) == Row(97, 0x3, 5);
    assert code[ROWS[0].symbol] == ROWS[0].Code() && code[ROWS[3].symbol] == ROWS[3].Code();
    assert ToBits(0, 5) == [false, false, false, false, false];
  }
}
