/** HPACK_HUFFMAN_CODES, the code table of RFC 7541 appendix B as the program stores it.
    Only the predicate `Entry` is checked symbol by symbol; the rest is reasoning. */
module HuffmanTable {
  import opened Prelude
  import opened PrefixCodes

  /** HPACK_HUFFMAN_CODES, sixteen symbols to a row. */
  const ROW_0: seq<Code> := [
    Code(0x1ff8, 13), Code(0x7fffd8, 23), Code(0xfffffe2, 28), Code(0xfffffe3, 28),
    Code(0xfffffe4, 28), Code(0xfffffe5, 28), Code(0xfffffe6, 28), Code(0xfffffe7, 28),
    Code(0xfffffe8, 28), Code(0xffffea, 24), Code(0x3ffffffc, 30), Code(0xfffffe9, 28),
    Code(0xfffffea, 28), Code(0x3ffffffd, 30), Code(0xfffffeb, 28), Code(0xfffffec, 28)
  ]
  const ROW_1: seq<Code> := [
    Code(0xfffffed, 28), Code(0xfffffee, 28), Code(0xfffffef, 28), Code(0xffffff0, 28),
    Code(0xffffff1, 28), Code(0xffffff2, 28), Code(0x3ffffffe, 30), Code(0xffffff3, 28),
    Code(0xffffff4, 28), Code(0xffffff5, 28), Code(0xffffff6, 28), Code(0xffffff7, 28),
    Code(0xffffff8, 28), Code(0xffffff9, 28), Code(0xffffffa, 28), Code(0xffffffb, 28)
  ]
  const ROW_2: seq<Code> := [
    Code(0x14, 6), Code(0x3f8, 10), Code(0x3f9, 10), Code(0xffa, 12),
    Code(0x1ff9, 13), Code(0x15, 6), Code(0xf8, 8), Code(0x7fa, 11),
    Code(0x3fa, 10), Code(0x3fb, 10), Code(0xf9, 8), Code(0x7fb, 11),
    Code(0xfa, 8), Code(0x16, 6), Code(0x17, 6), Code(0x18, 6)
  ]
  const ROW_3: seq<Code> := [
    Code(0x0, 5), Code(0x1, 5), Code(0x2, 5), Code(0x19, 6),
    Code(0x1a, 6), Code(0x1b, 6), Code(0x1c, 6), Code(0x1d, 6),
    Code(0x1e, 6), Code(0x1f, 6), Code(0x5c, 7), Code(0xfb, 8),
    Code(0x7ffc, 15), Code(0x20, 6), Code(0xffb, 12), Code(0x3fc, 10)
  ]
  const ROW_4: seq<Code> := [
    Code(0x1ffa, 13), Code(0x21, 6), Code(0x5d, 7), Code(0x5e, 7),
    Code(0x5f, 7), Code(0x60, 7), Code(0x61, 7), Code(0x62, 7),
    Code(0x63, 7), Code(0x64, 7), Code(0x65, 7), Code(0x66, 7),
    Code(0x67, 7), Code(0x68, 7), Code(0x69, 7), Code(0x6a, 7)
  ]
  const ROW_5: seq<Code> := [
    Code(0x6b, 7), Code(0x6c, 7), Code(0x6d, 7), Code(0x6e, 7),
    Code(0x6f, 7), Code(0x70, 7), Code(0x71, 7), Code(0x72, 7),
    Code(0xfc, 8), Code(0x73, 7), Code(0xfd, 8), Code(0x1ffb, 13),
    Code(0x7fff0, 19), Code(0x1ffc, 13), Code(0x3ffc, 14), Code(0x22, 6)
  ]
  const ROW_6: seq<Code> := [
    Code(0x7ffd, 15), Code(0x3, 5), Code(0x23, 6), Code(0x4, 5),
    Code(0x24, 6), Code(0x5, 5), Code(0x25, 6), Code(0x26, 6),
    Code(0x27, 6), Code(0x6, 5), Code(0x74, 7), Code(0x75, 7),
    Code(0x28, 6), Code(0x29, 6), Code(0x2a, 6), Code(0x7, 5)
  ]
  const ROW_7: seq<Code> := [
    Code(0x2b, 6), Code(0x76, 7), Code(0x2c, 6), Code(0x8, 5),
    Code(0x9, 5), Code(0x2d, 6), Code(0x77, 7), Code(0x78, 7),
    Code(0x79, 7), Code(0x7a, 7), Code(0x7b, 7), Code(0x7ffe, 15),
    Code(0x7fc, 11), Code(0x3ffd, 14), Code(0x1ffd, 13), Code(0xffffffc, 28)
  ]
  const ROW_8: seq<Code> := [
    Code(0xfffe6, 20), Code(0x3fffd2, 22), Code(0xfffe7, 20), Code(0xfffe8, 20),
    Code(0x3fffd3, 22), Code(0x3fffd4, 22), Code(0x3fffd5, 22), Code(0x7fffd9, 23),
    Code(0x3fffd6, 22), Code(0x7fffda, 23), Code(0x7fffdb, 23), Code(0x7fffdc, 23),
    Code(0x7fffdd, 23), Code(0x7fffde, 23), Code(0xffffeb, 24), Code(0x7fffdf, 23)
  ]
  const ROW_9: seq<Code> := [
    Code(0xffffec, 24), Code(0xffffed, 24), Code(0x3fffd7, 22), Code(0x7fffe0, 23),
    Code(0xffffee, 24), Code(0x7fffe1, 23), Code(0x7fffe2, 23), Code(0x7fffe3, 23),
    Code(0x7fffe4, 23), Code(0x1fffdc, 21), Code(0x3fffd8, 22), Code(0x7fffe5, 23),
    Code(0x3fffd9, 22), Code(0x7fffe6, 23), Code(0x7fffe7, 23), Code(0xffffef, 24)
  ]
  const ROW_A: seq<Code> := [
    Code(0x3fffda, 22), Code(0x1fffdd, 21), Code(0xfffe9, 20), Code(0x3fffdb, 22),
    Code(0x3fffdc, 22), Code(0x7fffe8, 23), Code(0x7fffe9, 23), Code(0x1fffde, 21),
    Code(0x7fffea, 23), Code(0x3fffdd, 22), Code(0x3fffde, 22), Code(0xfffff0, 24),
    Code(0x1fffdf, 21), Code(0x3fffdf, 22), Code(0x7fffeb, 23), Code(0x7fffec, 23)
  ]
  const ROW_B: seq<Code> := [
    Code(0x1fffe0, 21), Code(0x1fffe1, 21), Code(0x3fffe0, 22), Code(0x1fffe2, 21),
    Code(0x7fffed, 23), Code(0x3fffe1, 22), Code(0x7fffee, 23), Code(0x7fffef, 23),
    Code(0xfffea, 20), Code(0x3fffe2, 22), Code(0x3fffe3, 22), Code(0x3fffe4, 22),
    Code(0x7ffff0, 23), Code(0x3fffe5, 22), Code(0x3fffe6, 22), Code(0x7ffff1, 23)
  ]
  const ROW_C: seq<Code> := [
    Code(0x3ffffe0, 26), Code(0x3ffffe1, 26), Code(0xfffeb, 20), Code(0x7fff1, 19),
    Code(0x3fffe7, 22), Code(0x7ffff2, 23), Code(0x3fffe8, 22), Code(0x1ffffec, 25),
    Code(0x3ffffe2, 26), Code(0x3ffffe3, 26), Code(0x3ffffe4, 26), Code(0x7ffffde, 27),
    Code(0x7ffffdf, 27), Code(0x3ffffe5, 26), Code(0xfffff1, 24), Code(0x1ffffed, 25)
  ]
  const ROW_D: seq<Code> := [
    Code(0x7fff2, 19), Code(0x1fffe3, 21), Code(0x3ffffe6, 26), Code(0x7ffffe0, 27),
    Code(0x7ffffe1, 27), Code(0x3ffffe7, 26), Code(0x7ffffe2, 27), Code(0xfffff2, 24),
    Code(0x1fffe4, 21), Code(0x1fffe5, 21), Code(0x3ffffe8, 26), Code(0x3ffffe9, 26),
    Code(0xffffffd, 28), Code(0x7ffffe3, 27), Code(0x7ffffe4, 27), Code(0x7ffffe5, 27)
  ]
  const ROW_E: seq<Code> := [
    Code(0xfffec, 20), Code(0xfffff3, 24), Code(0xfffed, 20), Code(0x1fffe6, 21),
    Code(0x3fffe9, 22), Code(0x1fffe7, 21), Code(0x1fffe8, 21), Code(0x7ffff3, 23),
    Code(0x3fffea, 22), Code(0x3fffeb, 22), Code(0x1ffffee, 25), Code(0x1ffffef, 25),
    Code(0xfffff4, 24), Code(0xfffff5, 24), Code(0x3ffffea, 26), Code(0x7ffff4, 23)
  ]
  const ROW_F: seq<Code> := [
    Code(0x3ffffeb, 26), Code(0x7ffffe6, 27), Code(0x3ffffec, 26), Code(0x3ffffed, 26),
    Code(0x7ffffe7, 27), Code(0x7ffffe8, 27), Code(0x7ffffe9, 27), Code(0x7ffffea, 27),
    Code(0x7ffffeb, 27), Code(0xffffffe, 28), Code(0x7ffffec, 27), Code(0x7ffffed, 27),
    Code(0x7ffffee, 27), Code(0x7ffffef, 27), Code(0x7fffff0, 27), Code(0x3ffffee, 26)
  ]

  function Row(r: nat): (row: seq<Code>)
    ensures |row| == 16
  {
    match r
    case 0 => ROW_0
    case 1 => ROW_1
    case 2 => ROW_2
    case 3 => ROW_3
    case 4 => ROW_4
    case 5 => ROW_5
    case 6 => ROW_6
    case 7 => ROW_7
    case 8 => ROW_8
    case 9 => ROW_9
    case 10 => ROW_A
    case 11 => ROW_B
    case 12 => ROW_C
    case 13 => ROW_D
    case 14 => ROW_E
    case _ => ROW_F
  }

  /** The first code of length `len`. */
  function First(len: nat): nat {
    match len
    case 6 => 0x14
    case 7 => 0x5c
    case 8 => 0xf8
    case 9 => 0x1fc
    case 10 => 0x3f8
    case 11 => 0x7fa
    case 12 => 0xffa
    case 13 => 0x1ff8
    case 14 => 0x3ffc
    case 15 => 0x7ffc
    case 16 => 0xfffe
    case 17 => 0x1fffc
    case 18 => 0x3fff8
    case 19 => 0x7fff0
    case 20 => 0xfffe6
    case 21 => 0x1fffdc
    case 22 => 0x3fffd2
    case 23 => 0x7fffd8
    case 24 => 0xffffea
    case 25 => 0x1ffffec
    case 26 => 0x3ffffe0
    case 27 => 0x7ffffde
    case 28 => 0xfffffe2
    case 29 => 0x1ffffffe
    case 30 => 0x3ffffffc
    case 31 => 0x7ffffffe
    case _ => 0
  }

  /** The number of codes of length `len`. */
  function Count(len: nat): nat {
    match len
    case 5 => 10
    case 6 => 26
    case 7 => 32
    case 8 => 6
    case 10 => 5
    case 11 => 3
    case 12 => 2
    case 13 => 6
    case 14 => 2
    case 15 => 3
    case 19 => 3
    case 20 => 8
    case 21 => 13
    case 22 => 26
    case 23 => 29
    case 24 => 12
    case 25 => 4
    case 26 => 15
    case 27 => 19
    case 28 => 29
    case 30 => 3
    case _ => 0
  }

  /** The number of codes shorter than `len`. */
  function Shorter(len: nat): nat {
    match len
    case 6 => 10
    case 7 => 36
    case 8 => 68
    case 9 => 74
    case 10 => 74
    case 11 => 79
    case 12 => 82
    case 13 => 84
    case 14 => 90
    case 15 => 92
    case 16 => 95
    case 17 => 95
    case 18 => 95
    case 19 => 95
    case 20 => 98
    case 21 => 106
    case 22 => 119
    case 23 => 145
    case 24 => 174
    case 25 => 186
    case 26 => 190
    case 27 => 205
    case 28 => 224
    case 29 => 253
    case 30 => 253
    case 31 => 256
    case _ => 0
  }

  function Layout(len: nat): Lengths {
    Lengths(First(len), Count(len), Shorter(len))
  }

  /** The symbol with the `i`-th code of length `len`, and 256 when there is none. */
  function SymbolAt(len: nat, i: nat): nat {
    match len
    case 5 => SymbolAt5(i)
    case 6 => SymbolAt6(i)
    case 7 => SymbolAt7(i)
    case 8 => SymbolAt8(i)
    case 10 => SymbolAt10(i)
    case 11 => SymbolAt11(i)
    case 12 => SymbolAt12(i)
    case 13 => SymbolAt13(i)
    case 14 => SymbolAt14(i)
    case 15 => SymbolAt15(i)
    case 19 => SymbolAt19(i)
    case 20 => SymbolAt20(i)
    case 21 => SymbolAt21(i)
    case 22 => SymbolAt22(i)
    case 23 => SymbolAt23(i)
    case 24 => SymbolAt24(i)
    case 25 => SymbolAt25(i)
    case 26 => SymbolAt26(i)
    case 27 => SymbolAt27(i)
    case 28 => SymbolAt28(i)
    case 30 => SymbolAt30(i)
    case _ => 256
  }

  function SymbolAt5(i: nat): nat {
    match i
    case 0 => 48 case 1 => 49 case 2 => 50 case 3 => 97 case 4 => 99 case 5 => 101
    case 6 => 105 case 7 => 111 case 8 => 115 case 9 => 116 case _ => 256
  }

  function SymbolAt6(i: nat): nat {
    match i
    case 0 => 32 case 1 => 37 case 2 => 45 case 3 => 46 case 4 => 47 case 5 => 51
    case 6 => 52 case 7 => 53 case 8 => 54 case 9 => 55 case 10 => 56 case 11 => 57
    case 12 => 61 case 13 => 65 case 14 => 95 case 15 => 98 case 16 => 100 case 17 => 102
    case 18 => 103 case 19 => 104 case 20 => 108 case 21 => 109 case 22 => 110 case 23 => 112
    case 24 => 114 case 25 => 117 case _ => 256
  }

  function SymbolAt7(i: nat): nat {
    match i
    case 0 => 58 case 1 => 66 case 2 => 67 case 3 => 68 case 4 => 69 case 5 => 70
    case 6 => 71 case 7 => 72 case 8 => 73 case 9 => 74 case 10 => 75 case 11 => 76
    case 12 => 77 case 13 => 78 case 14 => 79 case 15 => 80 case 16 => 81 case 17 => 82
    case 18 => 83 case 19 => 84 case 20 => 85 case 21 => 86 case 22 => 87 case 23 => 89
    case 24 => 106 case 25 => 107 case 26 => 113 case 27 => 118 case 28 => 119 case 29 => 120
    case 30 => 121 case 31 => 122 case _ => 256
  }

  function SymbolAt8(i: nat): nat {
    match i
    case 0 => 38 case 1 => 42 case 2 => 44 case 3 => 59 case 4 => 88 case 5 => 90
    case _ => 256
  }

  function SymbolAt10(i: nat): nat {
    match i
    case 0 => 33 case 1 => 34 case 2 => 40 case 3 => 41 case 4 => 63 case _ => 256
  }

  function SymbolAt11(i: nat): nat {
    match i
    case 0 => 39 case 1 => 43 case 2 => 124 case _ => 256
  }

  function SymbolAt12(i: nat): nat {
    match i
    case 0 => 35 case 1 => 62 case _ => 256
  }

  function SymbolAt13(i: nat): nat {
    match i
    case 0 => 0 case 1 => 36 case 2 => 64 case 3 => 91 case 4 => 93 case 5 => 126
    case _ => 256
  }

  function SymbolAt14(i: nat): nat {
    match i
    case 0 => 94 case 1 => 125 case _ => 256
  }

  function SymbolAt15(i: nat): nat {
    match i
    case 0 => 60 case 1 => 96 case 2 => 123 case _ => 256
  }

  function SymbolAt19(i: nat): nat {
    match i
    case 0 => 92 case 1 => 195 case 2 => 208 case _ => 256
  }

  function SymbolAt20(i: nat): nat {
    match i
    case 0 => 128 case 1 => 130 case 2 => 131 case 3 => 162 case 4 => 184 case 5 => 194
    case 6 => 224 case 7 => 226 case _ => 256
  }

  function SymbolAt21(i: nat): nat {
    match i
    case 0 => 153 case 1 => 161 case 2 => 167 case 3 => 172 case 4 => 176 case 5 => 177
    case 6 => 179 case 7 => 209 case 8 => 216 case 9 => 217 case 10 => 227 case 11 => 229
    case 12 => 230 case _ => 256
  }

  function SymbolAt22(i: nat): nat {
    match i
    case 0 => 129 case 1 => 132 case 2 => 133 case 3 => 134 case 4 => 136 case 5 => 146
    case 6 => 154 case 7 => 156 case 8 => 160 case 9 => 163 case 10 => 164 case 11 => 169
    case 12 => 170 case 13 => 173 case 14 => 178 case 15 => 181 case 16 => 185 case 17 => 186
    case 18 => 187 case 19 => 189 case 20 => 190 case 21 => 196 case 22 => 198 case 23 => 228
    case 24 => 232 case 25 => 233 case _ => 256
  }

  function SymbolAt23(i: nat): nat {
    match i
    case 0 => 1 case 1 => 135 case 2 => 137 case 3 => 138 case 4 => 139 case 5 => 140
    case 6 => 141 case 7 => 143 case 8 => 147 case 9 => 149 case 10 => 150 case 11 => 151
    case 12 => 152 case 13 => 155 case 14 => 157 case 15 => 158 case 16 => 165 case 17 => 166
    case 18 => 168 case 19 => 174 case 20 => 175 case 21 => 180 case 22 => 182 case 23 => 183
    case 24 => 188 case 25 => 191 case 26 => 197 case 27 => 231 case 28 => 239 case _ => 256
  }

  function SymbolAt24(i: nat): nat {
    match i
    case 0 => 9 case 1 => 142 case 2 => 144 case 3 => 145 case 4 => 148 case 5 => 159
    case 6 => 171 case 7 => 206 case 8 => 215 case 9 => 225 case 10 => 236 case 11 => 237
    case _ => 256
  }

  function SymbolAt25(i: nat): nat {
    match i
    case 0 => 199 case 1 => 207 case 2 => 234 case 3 => 235 case _ => 256
  }

  function SymbolAt26(i: nat): nat {
    match i
    case 0 => 192 case 1 => 193 case 2 => 200 case 3 => 201 case 4 => 202 case 5 => 205
    case 6 => 210 case 7 => 213 case 8 => 218 case 9 => 219 case 10 => 238 case 11 => 240
    case 12 => 242 case 13 => 243 case 14 => 255 case _ => 256
  }

  function SymbolAt27(i: nat): nat {
    match i
    case 0 => 203 case 1 => 204 case 2 => 211 case 3 => 212 case 4 => 214 case 5 => 221
    case 6 => 222 case 7 => 223 case 8 => 241 case 9 => 244 case 10 => 245 case 11 => 246
    case 12 => 247 case 13 => 248 case 14 => 250 case 15 => 251 case 16 => 252 case 17 => 253
    case 18 => 254 case _ => 256
  }

  function SymbolAt28(i: nat): nat {
    match i
    case 0 => 2 case 1 => 3 case 2 => 4 case 3 => 5 case 4 => 6 case 5 => 7
    case 6 => 8 case 7 => 11 case 8 => 12 case 9 => 14 case 10 => 15 case 11 => 16
    case 12 => 17 case 13 => 18 case 14 => 19 case 15 => 20 case 16 => 21 case 17 => 23
    case 18 => 24 case 19 => 25 case 20 => 26 case 21 => 27 case 22 => 28 case 23 => 29
    case 24 => 30 case 25 => 31 case 26 => 127 case 27 => 220 case 28 => 249 case _ => 256
  }

  function SymbolAt30(i: nat): nat {
    match i
    case 0 => 10 case 1 => 13 case 2 => 22 case _ => 256
  }

  predicate Entry(code: Code, symbol: nat) {
    && 5 <= code.len <= 30
    && First(code.len) <= code.bits < First(code.len) + Count(code.len)
    && SymbolAt(code.len, code.bits - First(code.len)) == symbol
  }

  /** Eight entries of a row, from `first` on. */
  predicate HalfChecked(r: nat, first: nat)
    requires first <= 8
  {
    forall i | first <= i < first + 8 :: Entry(Row(r)[i], 16 * r + i)
  }

  predicate RowChecked(r: nat) {
    HalfChecked(r, 0) && HalfChecked(r, 8)
  }

  lemma Row0Left() ensures HalfChecked(0, 0) {}
  lemma Row0Right() ensures HalfChecked(0, 8) {}
  lemma Row1Left() ensures HalfChecked(1, 0) {}
  lemma Row1Right() ensures HalfChecked(1, 8) {}
  lemma Row2Left() ensures HalfChecked(2, 0) {}
  lemma Row2Right() ensures HalfChecked(2, 8) {}
  lemma Row3Left() ensures HalfChecked(3, 0) {}
  lemma Row3Right() ensures HalfChecked(3, 8) {}
  lemma Row4Left() ensures HalfChecked(4, 0) {}
  lemma Row4Right() ensures HalfChecked(4, 8) {}
  lemma Row5Left() ensures HalfChecked(5, 0) {}
  lemma Row5Right() ensures HalfChecked(5, 8) {}
  lemma Row6Left() ensures HalfChecked(6, 0) {}
  lemma Row6Right() ensures HalfChecked(6, 8) {}
  lemma Row7Left() ensures HalfChecked(7, 0) {}
  lemma Row7Right() ensures HalfChecked(7, 8) {}
  lemma Row8Left() ensures HalfChecked(8, 0) {}
  lemma Row8Right() ensures HalfChecked(8, 8) {}
  lemma Row9Left() ensures HalfChecked(9, 0) {}
  lemma Row9Right() ensures HalfChecked(9, 8) {}
  lemma RowALeft() ensures HalfChecked(10, 0) {}
  lemma RowARight() ensures HalfChecked(10, 8) {}
  lemma RowBLeft() ensures HalfChecked(11, 0) {}
  lemma RowBRight() ensures HalfChecked(11, 8) {}
  lemma RowCLeft() ensures HalfChecked(12, 0) {}
  lemma RowCRight() ensures HalfChecked(12, 8) {}
  lemma RowDLeft() ensures HalfChecked(13, 0) {}
  lemma RowDRight() ensures HalfChecked(13, 8) {}
  lemma RowELeft() ensures HalfChecked(14, 0) {}
  lemma RowERight() ensures HalfChecked(14, 8) {}
  lemma RowFLeft() ensures HalfChecked(15, 0) {}
  lemma RowFRight() ensures HalfChecked(15, 8) {}

  lemma RowsChecked(r: nat)
    requires r < 16
    ensures RowChecked(r)
  {
    match r
    case 0 => Row0Left(); Row0Right();
    case 1 => Row1Left(); Row1Right();
    case 2 => Row2Left(); Row2Right();
    case 3 => Row3Left(); Row3Right();
    case 4 => Row4Left(); Row4Right();
    case 5 => Row5Left(); Row5Right();
    case 6 => Row6Left(); Row6Right();
    case 7 => Row7Left(); Row7Right();
    case 8 => Row8Left(); Row8Right();
    case 9 => Row9Left(); Row9Right();
    case 10 => RowALeft(); RowARight();
    case 11 => RowBLeft(); RowBRight();
    case 12 => RowCLeft(); RowCRight();
    case 13 => RowDLeft(); RowDRight();
    case 14 => RowELeft(); RowERight();
    case 15 => RowFLeft(); RowFRight();
  }

  const HPACK_HUFFMAN_CODES: Table :=
    seq(256, symbol requires 0 <= symbol < 256 => Row(symbol / 16)[symbol % 16])

  lemma TableEntry(s: byte)
    ensures Entry(HPACK_HUFFMAN_CODES[s], s)
  {
    RowsChecked(s / 16);
    assert Entry(Row(s / 16)[s % 16], 16 * (s / 16) + s % 16);
  }

  lemma NextRow(len: nat)
    requires len < 31
    ensures First(len + 1) == 2 * (First(len) + Count(len))
    ensures Shorter(len + 1) == Shorter(len) + Count(len)
  {}

  lemma LayoutIsConsecutive()
    ensures Consecutive(Layout)
  {
    forall len: nat | len < 31 ensures NextLength(Layout, len) {
      NextRow(len);
    }
  }

  lemma EntryUnique(code: Code, s: nat, t: nat)
    requires Entry(code, s) && Entry(code, t)
    ensures s == t
  {}

  lemma TableIsCanonical()
    ensures Canonical(HPACK_HUFFMAN_CODES, Layout)
  {
    LayoutIsConsecutive();
    forall s: byte ensures PlacedAt(HPACK_HUFFMAN_CODES, Layout, s) {
      TableEntry(s);
    }
    forall s: byte, t: byte | SameCode(HPACK_HUFFMAN_CODES, s, t) ensures s == t {
      TableEntry(s);
      TableEntry(t);
      EntryUnique(HPACK_HUFFMAN_CODES[s], s, t);
    }
  }

  /** The table of the program is a prefix code that leaves nothing but EOS unused. */
  lemma HpackCodeIsComplete()
    ensures Complete(HPACK_HUFFMAN_CODES)
  {
    TableIsCanonical();
    CanonicalIsComplete(HPACK_HUFFMAN_CODES, Layout);
  }
}
