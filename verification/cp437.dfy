/**
 * UTF-8 to code page 437 transcoding (drivers/video/utf8_cp437.c): the video
 * console feeds a UTF-8 byte stream through a one-byte-at-a-time decoder and
 * draws the resulting code page 437 glyph index with its VGA font.
 *
 * Code points, glyph bytes and the decoder's state word `*esc` are integers
 * of the source's widths (`u16`, `u8`, `u32`). The decoder's masks and
 * shifts are written as remainders and products by powers of two, and its
 * ORs as `BitOr`, which is a sum wherever the operands' bits do not overlap.
 */
module Utf8Cp437 {

  import opened FixedWidth

  // ---------------------------------------------------------------------
  // Lookup tables
  // ---------------------------------------------------------------------

  /** `code_points_00a0`: CP437 byte for each code point U+00A0 .. U+00FF, 7 where CP437 has no glyph. */
  function CodePoints00A0(i: u16): (r: u8)
    requires i < 96
    ensures r != 0
  {
    match i
    case 0 => 255  // U+00A0
    case 1 => 173  // U+00A1
    case 2 => 155  // U+00A2
    case 3 => 156  // U+00A3
    case 4 => 7  // U+00A4
    case 5 => 157  // U+00A5
    case 6 => 7  // U+00A6
    case 7 => 21  // U+00A7
    case 8 => 7  // U+00A8
    case 9 => 7  // U+00A9
    case 10 => 166  // U+00AA
    case 11 => 174  // U+00AB
    case 12 => 170  // U+00AC
    case 13 => 7  // U+00AD
    case 14 => 7  // U+00AE
    case 15 => 7  // U+00AF
    case 16 => 248  // U+00B0
    case 17 => 241  // U+00B1
    case 18 => 253  // U+00B2
    case 19 => 7  // U+00B3
    case 20 => 7  // U+00B4
    case 21 => 230  // U+00B5
    case 22 => 20  // U+00B6
    case 23 => 250  // U+00B7
    case 24 => 7  // U+00B8
    case 25 => 7  // U+00B9
    case 26 => 167  // U+00BA
    case 27 => 175  // U+00BB
    case 28 => 172  // U+00BC
    case 29 => 171  // U+00BD
    case 30 => 7  // U+00BE
    case 31 => 168  // U+00BF
    case 32 => 7  // U+00C0
    case 33 => 7  // U+00C1
    case 34 => 7  // U+00C2
    case 35 => 7  // U+00C3
    case 36 => 142  // U+00C4
    case 37 => 143  // U+00C5
    case 38 => 146  // U+00C6
    case 39 => 128  // U+00C7
    case 40 => 7  // U+00C8
    case 41 => 144  // U+00C9
    case 42 => 7  // U+00CA
    case 43 => 7  // U+00CB
    case 44 => 7  // U+00CC
    case 45 => 7  // U+00CD
    case 46 => 7  // U+00CE
    case 47 => 7  // U+00CF
    case 48 => 7  // U+00D0
    case 49 => 165  // U+00D1
    case 50 => 7  // U+00D2
    case 51 => 7  // U+00D3
    case 52 => 7  // U+00D4
    case 53 => 7  // U+00D5
    case 54 => 153  // U+00D6
    case 55 => 7  // U+00D7
    case 56 => 7  // U+00D8
    case 57 => 7  // U+00D9
    case 58 => 7  // U+00DA
    case 59 => 7  // U+00DB
    case 60 => 154  // U+00DC
    case 61 => 7  // U+00DD
    case 62 => 7  // U+00DE
    case 63 => 225  // U+00DF
    case 64 => 133  // U+00E0
    case 65 => 160  // U+00E1
    case 66 => 131  // U+00E2
    case 67 => 7  // U+00E3
    case 68 => 132  // U+00E4
    case 69 => 134  // U+00E5
    case 70 => 145  // U+00E6
    case 71 => 135  // U+00E7
    case 72 => 138  // U+00E8
    case 73 => 130  // U+00E9
    case 74 => 136  // U+00EA
    case 75 => 137  // U+00EB
    case 76 => 141  // U+00EC
    case 77 => 161  // U+00ED
    case 78 => 140  // U+00EE
    case 79 => 139  // U+00EF
    case 80 => 7  // U+00F0
    case 81 => 164  // U+00F1
    case 82 => 149  // U+00F2
    case 83 => 162  // U+00F3
    case 84 => 147  // U+00F4
    case 85 => 7  // U+00F5
    case 86 => 148  // U+00F6
    case 87 => 246  // U+00F7
    case 88 => 7  // U+00F8
    case 89 => 151  // U+00F9
    case 90 => 163  // U+00FA
    case 91 => 150  // U+00FB
    case 92 => 129  // U+00FC
    case 93 => 7  // U+00FD
    case 94 => 7  // U+00FE
    case _ => 152  // 95: U+00FF
  }

  /** `code_points_2550`: CP437 byte for each double-line box-drawing code point U+2550 .. U+256C. */
  function CodePoints2550(i: u16): (r: u8)
    requires i < 29
    ensures 0xB0 <= r < 0xE0
  {
    match i
    case 0 => 205  // U+2550
    case 1 => 186  // U+2551
    case 2 => 213  // U+2552
    case 3 => 214  // U+2553
    case 4 => 201  // U+2554
    case 5 => 184  // U+2555
    case 6 => 183  // U+2556
    case 7 => 187  // U+2557
    case 8 => 212  // U+2558
    case 9 => 211  // U+2559
    case 10 => 200  // U+255A
    case 11 => 190  // U+255B
    case 12 => 189  // U+255C
    case 13 => 188  // U+255D
    case 14 => 198  // U+255E
    case 15 => 199  // U+255F
    case 16 => 204  // U+2560
    case 17 => 181  // U+2561
    case 18 => 182  // U+2562
    case 19 => 185  // U+2563
    case 20 => 209  // U+2564
    case 21 => 210  // U+2565
    case 22 => 203  // U+2566
    case 23 => 207  // U+2567
    case 24 => 208  // U+2568
    case 25 => 202  // U+2569
    case 26 => 216  // U+256A
    case 27 => 215  // U+256B
    case _ => 206  // 28: U+256C
  }

  /** Sparse map for the code points U+0100 .. U+07FF that CP437 can show; 0 otherwise. */
  function Convert11Bit(code: u16): (r: u8)
    ensures r == 0 || r == 0x9F || 0xE0 <= r
  {
    match code
    case 0x0192 => 159
    case 0x0393 => 226
    case 0x0398 => 233
    case 0x03A3 => 228
    case 0x03A6 => 232
    case 0x03A9 => 234
    case 0x03B1 => 224
    case 0x03B4 => 235
    case 0x03B5 => 238
    case 0x03C0 => 227
    case 0x03C3 => 229
    case 0x03C4 => 231
    case 0x03C6 => 237
    case _ => 0
  }

  /** Sparse map for the symbols from U+0800 up that CP437 can show; 0 otherwise. */
  function Convert2xxx(code: u16): (r: u8)
  {
    match code
    case 0x2022 => 7
    case 0x203C => 19
    case 0x207F => 252
    case 0x20A7 => 158
    case 0x2190 => 27
    case 0x2191 => 24
    case 0x2192 => 26
    case 0x2193 => 25
    case 0x2194 => 29
    case 0x2195 => 18
    case 0x21A8 => 23
    case 0x2219 => 249
    case 0x221A => 251
    case 0x221E => 236
    case 0x221F => 28
    case 0x2229 => 239
    case 0x2248 => 247
    case 0x2261 => 240
    case 0x2264 => 243
    case 0x2265 => 242
    case 0x2310 => 169
    case 0x2320 => 244
    case 0x2321 => 245
    case 0x2500 => 196
    case 0x2502 => 179
    case 0x250C => 218
    case 0x2510 => 191
    case 0x2514 => 192
    case 0x2518 => 217
    case 0x251C => 195
    case 0x2524 => 180
    case 0x252C => 194
    case 0x2534 => 193
    case 0x253C => 197
    case 0x2580 => 223
    case 0x2584 => 220
    case 0x2588 => 219
    case 0x258C => 221
    case 0x2590 => 222
    case 0x2591 => 176
    case 0x2592 => 177
    case 0x2593 => 178
    case 0x25A0 => 254
    case 0x25AC => 22
    case 0x25B2 => 30
    case 0x25BA => 16
    case 0x25BC => 31
    case 0x25C4 => 17
    case 0x25CB => 9
    case 0x25D8 => 8
    case 0x25D9 => 10
    case 0x263A => 1
    case 0x263B => 2
    case 0x263C => 15
    case 0x2640 => 12
    case 0x2642 => 11
    case 0x2660 => 6
    case 0x2663 => 5
    case 0x2665 => 3
    case 0x2666 => 4
    case 0x266A => 13
    case 0x266B => 14
    case _ => 0
  }

  /**
   * The reference table of code page 437 in its graphic interpretation: the
   * Unicode code point of the glyph each CP437 byte shows. Bytes 0x20 .. 0x7E
   * are ASCII; the other rows are spelled out below.
   */
  function Cp437Glyph(b: u8): u16
  {
    if b < 0x20 then ControlGlyph(b)
    else if b < 0x7F then b as u16
    else if b == 0x7F then 0x2302            // house
    else if b < 0xB0 then AccentedGlyph(b - 0x80)
    else if b < 0xE0 then BoxGlyph(b - 0xB0)
    else MathGlyph(b - 0xE0)
  }

  /** CP437 glyphs: the pictures CP437 shows for the control bytes 0x00 .. 0x1F. */
  function ControlGlyph(i: u8): u16
    requires i < 32
  {
    match i
    case 0 => 0x0000  // 0x00
    case 1 => 0x263A  // 0x01
    case 2 => 0x263B  // 0x02
    case 3 => 0x2665  // 0x03
    case 4 => 0x2666  // 0x04
    case 5 => 0x2663  // 0x05
    case 6 => 0x2660  // 0x06
    case 7 => 0x2022  // 0x07
    case 8 => 0x25D8  // 0x08
    case 9 => 0x25CB  // 0x09
    case 10 => 0x25D9  // 0x0A
    case 11 => 0x2642  // 0x0B
    case 12 => 0x2640  // 0x0C
    case 13 => 0x266A  // 0x0D
    case 14 => 0x266B  // 0x0E
    case 15 => 0x263C  // 0x0F
    case 16 => 0x25BA  // 0x10
    case 17 => 0x25C4  // 0x11
    case 18 => 0x2195  // 0x12
    case 19 => 0x203C  // 0x13
    case 20 => 0x00B6  // 0x14
    case 21 => 0x00A7  // 0x15
    case 22 => 0x25AC  // 0x16
    case 23 => 0x21A8  // 0x17
    case 24 => 0x2191  // 0x18
    case 25 => 0x2193  // 0x19
    case 26 => 0x2192  // 0x1A
    case 27 => 0x2190  // 0x1B
    case 28 => 0x221F  // 0x1C
    case 29 => 0x2194  // 0x1D
    case 30 => 0x25B2  // 0x1E
    case _ => 0x25BC  // 0x1F
  }

  /** CP437 glyphs: accented letters and currency signs, bytes 0x80 .. 0xAF. */
  function AccentedGlyph(i: u8): u16
    requires i < 48
  {
    match i
    case 0 => 0x00C7  // 0x80
    case 1 => 0x00FC  // 0x81
    case 2 => 0x00E9  // 0x82
    case 3 => 0x00E2  // 0x83
    case 4 => 0x00E4  // 0x84
    case 5 => 0x00E0  // 0x85
    case 6 => 0x00E5  // 0x86
    case 7 => 0x00E7  // 0x87
    case 8 => 0x00EA  // 0x88
    case 9 => 0x00EB  // 0x89
    case 10 => 0x00E8  // 0x8A
    case 11 => 0x00EF  // 0x8B
    case 12 => 0x00EE  // 0x8C
    case 13 => 0x00EC  // 0x8D
    case 14 => 0x00C4  // 0x8E
    case 15 => 0x00C5  // 0x8F
    case 16 => 0x00C9  // 0x90
    case 17 => 0x00E6  // 0x91
    case 18 => 0x00C6  // 0x92
    case 19 => 0x00F4  // 0x93
    case 20 => 0x00F6  // 0x94
    case 21 => 0x00F2  // 0x95
    case 22 => 0x00FB  // 0x96
    case 23 => 0x00F9  // 0x97
    case 24 => 0x00FF  // 0x98
    case 25 => 0x00D6  // 0x99
    case 26 => 0x00DC  // 0x9A
    case 27 => 0x00A2  // 0x9B
    case 28 => 0x00A3  // 0x9C
    case 29 => 0x00A5  // 0x9D
    case 30 => 0x20A7  // 0x9E
    case 31 => 0x0192  // 0x9F
    case 32 => 0x00E1  // 0xA0
    case 33 => 0x00ED  // 0xA1
    case 34 => 0x00F3  // 0xA2
    case 35 => 0x00FA  // 0xA3
    case 36 => 0x00F1  // 0xA4
    case 37 => 0x00D1  // 0xA5
    case 38 => 0x00AA  // 0xA6
    case 39 => 0x00BA  // 0xA7
    case 40 => 0x00BF  // 0xA8
    case 41 => 0x2310  // 0xA9
    case 42 => 0x00AC  // 0xAA
    case 43 => 0x00BD  // 0xAB
    case 44 => 0x00BC  // 0xAC
    case 45 => 0x00A1  // 0xAD
    case 46 => 0x00AB  // 0xAE
    case _ => 0x00BB  // 0xAF
  }

  /** CP437 glyphs: shades and box drawing, bytes 0xB0 .. 0xDF. */
  function BoxGlyph(i: u8): u16
    requires i < 48
  {
    match i
    case 0 => 0x2591  // 0xB0
    case 1 => 0x2592  // 0xB1
    case 2 => 0x2593  // 0xB2
    case 3 => 0x2502  // 0xB3
    case 4 => 0x2524  // 0xB4
    case 5 => 0x2561  // 0xB5
    case 6 => 0x2562  // 0xB6
    case 7 => 0x2556  // 0xB7
    case 8 => 0x2555  // 0xB8
    case 9 => 0x2563  // 0xB9
    case 10 => 0x2551  // 0xBA
    case 11 => 0x2557  // 0xBB
    case 12 => 0x255D  // 0xBC
    case 13 => 0x255C  // 0xBD
    case 14 => 0x255B  // 0xBE
    case 15 => 0x2510  // 0xBF
    case 16 => 0x2514  // 0xC0
    case 17 => 0x2534  // 0xC1
    case 18 => 0x252C  // 0xC2
    case 19 => 0x251C  // 0xC3
    case 20 => 0x2500  // 0xC4
    case 21 => 0x253C  // 0xC5
    case 22 => 0x255E  // 0xC6
    case 23 => 0x255F  // 0xC7
    case 24 => 0x255A  // 0xC8
    case 25 => 0x2554  // 0xC9
    case 26 => 0x2569  // 0xCA
    case 27 => 0x2566  // 0xCB
    case 28 => 0x2560  // 0xCC
    case 29 => 0x2550  // 0xCD
    case 30 => 0x256C  // 0xCE
    case 31 => 0x2567  // 0xCF
    case 32 => 0x2568  // 0xD0
    case 33 => 0x2564  // 0xD1
    case 34 => 0x2565  // 0xD2
    case 35 => 0x2559  // 0xD3
    case 36 => 0x2558  // 0xD4
    case 37 => 0x2552  // 0xD5
    case 38 => 0x2553  // 0xD6
    case 39 => 0x256B  // 0xD7
    case 40 => 0x256A  // 0xD8
    case 41 => 0x2518  // 0xD9
    case 42 => 0x250C  // 0xDA
    case 43 => 0x2588  // 0xDB
    case 44 => 0x2584  // 0xDC
    case 45 => 0x258C  // 0xDD
    case 46 => 0x2590  // 0xDE
    case _ => 0x2580  // 0xDF
  }

  /** CP437 glyphs: Greek letters and mathematical symbols, bytes 0xE0 .. 0xFF. */
  function MathGlyph(i: u8): u16
    requires i < 32
  {
    match i
    case 0 => 0x03B1  // 0xE0
    case 1 => 0x00DF  // 0xE1
    case 2 => 0x0393  // 0xE2
    case 3 => 0x03C0  // 0xE3
    case 4 => 0x03A3  // 0xE4
    case 5 => 0x03C3  // 0xE5
    case 6 => 0x00B5  // 0xE6
    case 7 => 0x03C4  // 0xE7
    case 8 => 0x03A6  // 0xE8
    case 9 => 0x0398  // 0xE9
    case 10 => 0x03A9  // 0xEA
    case 11 => 0x03B4  // 0xEB
    case 12 => 0x221E  // 0xEC
    case 13 => 0x03C6  // 0xED
    case 14 => 0x03B5  // 0xEE
    case 15 => 0x2229  // 0xEF
    case 16 => 0x2261  // 0xF0
    case 17 => 0x00B1  // 0xF1
    case 18 => 0x2265  // 0xF2
    case 19 => 0x2264  // 0xF3
    case 20 => 0x2320  // 0xF4
    case 21 => 0x2321  // 0xF5
    case 22 => 0x00F7  // 0xF6
    case 23 => 0x2248  // 0xF7
    case 24 => 0x00B0  // 0xF8
    case 25 => 0x2219  // 0xF9
    case 26 => 0x00B7  // 0xFA
    case 27 => 0x221A  // 0xFB
    case 28 => 0x207F  // 0xFC
    case 29 => 0x00B2  // 0xFD
    case 30 => 0x25A0  // 0xFE
    case _ => 0x00A0  // 0xFF
  }

  // ---------------------------------------------------------------------
  // convert_uc16_to_cp437
  // ---------------------------------------------------------------------

  /**
   * `convert_uc16_to_cp437`: the CP437 byte showing a 16-bit code point,
   * 0 when CP437 has no glyph for it. Below U+00A0 the code point is its own
   * byte; every table index it computes lies inside its table.
   */
  function ConvertUc16(code: u16): (r: u8)
    ensures code < 0xA0 ==> r as u16 == code
  {
    if code < 0x7F then code as u8             // ASCII
    else if code < 0xA0 then code as u8        // high control characters
    else if code < 0x100 then CodePoints00A0(code - 0xA0)
    else if code < 0x800 then Convert11Bit(code)
    else if 0x2550 <= code < 0x256D then CodePoints2550(code - 0x2550)
    else Convert2xxx(code)
  }

  /** A code point that some CP437 byte shows. */
  ghost predicate IsCp437Glyph(code: u16)
  {
    exists b: u8 :: Cp437Glyph(b) == code
  }

  lemma RoundTripFacesAndSuits(b: u8)
    requires b < 0x8
    ensures ConvertUc16(Cp437Glyph(b)) == b
  {
  }

  lemma RoundTripControlGlyphsLow(b: u8)
    requires 0x8 <= b < 0x10
    ensures ConvertUc16(Cp437Glyph(b)) == b
  {
  }

  lemma RoundTripControlGlyphsHigh(b: u8)
    requires 0x10 <= b < 0x20
    ensures ConvertUc16(Cp437Glyph(b)) == b
  {
  }

  lemma RoundTripAscii(b: u8)
    requires 0x20 <= b < 0x7F
    ensures ConvertUc16(Cp437Glyph(b)) == b
  {
  }

  lemma RoundTripLatin(b: u8)
    requires 0x80 <= b < 0x98
    ensures ConvertUc16(Cp437Glyph(b)) == b
  {
  }

  lemma RoundTripLatinAndCurrency(b: u8)
    requires 0x98 <= b < 0xB0
    ensures ConvertUc16(Cp437Glyph(b)) == b
  {
  }

  lemma RoundTripBoxDrawing(b: u8)
    requires 0xB0 <= b < 0xC8
    ensures ConvertUc16(Cp437Glyph(b)) == b
  {
  }

  lemma RoundTripBoxDrawingHigh(b: u8)
    requires 0xC8 <= b < 0xE0
    ensures ConvertUc16(Cp437Glyph(b)) == b
  {
  }

  lemma RoundTripGreekAndMath(b: u8)
    requires 0xE0 <= b
    ensures ConvertUc16(Cp437Glyph(b)) == b
  {
  }

  /**
   * The converter inverts the CP437 table: the glyph of every CP437 byte
   * converts back to that byte, except the house glyph of byte 0x7F, which
   * the converter does not know (see HouseGlyphUnknown).
   */
  lemma RoundTrip(b: u8)
    requires b != 0x7F
    ensures ConvertUc16(Cp437Glyph(b)) == b
  {
    if b < 0x8 {
      RoundTripFacesAndSuits(b);
    } else if b < 0x10 {
      RoundTripControlGlyphsLow(b);
    } else if b < 0x20 {
      RoundTripControlGlyphsHigh(b);
    } else if b < 0x7F {
      RoundTripAscii(b);
    } else if b < 0x98 {
      RoundTripLatin(b);
    } else if b < 0xB0 {
      RoundTripLatinAndCurrency(b);
    } else if b < 0xC8 {
      RoundTripBoxDrawing(b);
    } else if b < 0xE0 {
      RoundTripBoxDrawingHigh(b);
    } else {
      RoundTripGreekAndMath(b);
    }
  }

  lemma HouseGlyphUnknown()
    ensures Cp437Glyph(0x7F) == 0x2302 && ConvertUc16(0x2302) == 0
  {
  }

  lemma LeftInverseLatin1Low(code: u16)
    requires 0xA0 <= code < 0xD0
    ensures ConvertUc16(code) == 7 || Cp437Glyph(ConvertUc16(code)) == code
  {
  }

  lemma LeftInverseLatin1High(code: u16)
    requires 0xD0 <= code < 0x100
    ensures ConvertUc16(code) == 7 || Cp437Glyph(ConvertUc16(code)) == code
  {
  }

  lemma LeftInverse11Bit(code: u16)
    requires 0x100 <= code < 0x800 && ConvertUc16(code) != 0
    ensures Cp437Glyph(ConvertUc16(code)) == code
  {
  }

  lemma LeftInverseBlockGraphics(code: u16)
    requires 0x2550 <= code < 0x256D
    ensures Cp437Glyph(ConvertUc16(code)) == code
  {
  }

  lemma LeftInverseSymbols(code: u16)
    requires 0x800 <= code && !(0x2550 <= code < 0x256D) && ConvertUc16(code) != 0
    ensures Cp437Glyph(ConvertUc16(code)) == code
  {
  }

  /**
   * Conversely, every byte the converter produces for a code point from
   * U+00A0 up is the CP437 byte showing that code point, except the
   * placeholder 7 for the Latin-1 characters CP437 lacks.
   */
  lemma LeftInverse(code: u16)
    requires 0xA0 <= code && ConvertUc16(code) != 0
    ensures Cp437Glyph(ConvertUc16(code)) == code || (ConvertUc16(code) == 7 && code < 0x100)
  {
    if code < 0xD0 {
      LeftInverseLatin1Low(code);
    } else if code < 0x100 {
      LeftInverseLatin1High(code);
    } else if code < 0x800 {
      LeftInverse11Bit(code);
    } else if 0x2550 <= code < 0x256D {
      LeftInverseBlockGraphics(code);
    } else {
      LeftInverseSymbols(code);
    }
  }

  /** Every dense-table entry is a real glyph byte, never the "no glyph" 0. */
  lemma Latin1NeverZero(code: u16)
    requires 0xA0 <= code < 0x100
    ensures ConvertUc16(code) != 0
  {
  }

  /**
   * Exactly which code points convert to 0: U+0000 itself, the house glyph
   * U+2302, and every code point from U+0100 up that no CP437 byte shows.
   */
  lemma ZeroExactlyForUnknown(code: u16)
    ensures ConvertUc16(code) == 0 <==>
              code == 0 || code == 0x2302 || (code >= 0x100 && !IsCp437Glyph(code))
  {
    if ConvertUc16(code) == 0 {
      if code < 0xA0 {
      } else if code < 0x100 {
        Latin1NeverZero(code);
      } else if code != 0x2302 && IsCp437Glyph(code) {
        var b: u8 :| Cp437Glyph(b) == code;
        RoundTrip(b);
        assert false;
      }
    } else if code >= 0x100 {
      LeftInverse(code);
      assert Cp437Glyph(ConvertUc16(code)) == code;
      HouseGlyphUnknown();
    }
  }

  // ---------------------------------------------------------------------
  // Bit operations on naturals
  // ---------------------------------------------------------------------

  function Pow2(n: nat): (p: nat)
    ensures p >= 1
  {
    if n == 0 then 1 else 2 * Pow2(n - 1)
  }

  /** The powers of two the decoder's shifts use. */
  lemma Pow2Values()
    ensures Pow2(3) == 0x8 && Pow2(4) == 0x10 && Pow2(5) == 0x20 && Pow2(6) == 0x40
    ensures Pow2(12) == 0x1000 && Pow2(16) == 0x1_0000 && Pow2(18) == 0x4_0000
  {
  }

  /** Bitwise OR of two naturals, one bit at a time from the bottom. */
  function BitOr(a: nat, b: nat): (r: nat)
    ensures r <= a + b
    decreases a + b
  {
    if a == 0 then b
    else if b == 0 then a
    else 2 * BitOr(a / 2, b / 2) + (if a % 2 == 1 || b % 2 == 1 then 1 else 0)
  }

  /** OR keeps within a width both operands fit. */
  lemma {:induction false} BitOrBound(a: nat, b: nat, k: nat)
    requires a < Pow2(k) && b < Pow2(k)
    ensures BitOr(a, b) < Pow2(k)
    decreases a + b
  {
    if a != 0 && b != 0 {
      BitOrBound(a / 2, b / 2, k - 1);
    }
  }

  /** OR of a multiple of 2^k and a value below 2^k is their sum: the bit fields do not overlap. */
  lemma {:induction false} BitOrDisjoint(q: nat, k: nat, b: nat)
    requires b < Pow2(k)
    ensures BitOr(q * Pow2(k), b) == q * Pow2(k) + b
    decreases k
  {
    if q == 0 || b == 0 {
    } else {
      var a := q * Pow2(k);
      assert k > 0;
      assert a / 2 == q * Pow2(k - 1) && a % 2 == 0;
      BitOrDisjoint(q, k - 1, b / 2);
    }
  }

  // ---------------------------------------------------------------------
  // convert_utf8_to_cp437: one decoder step
  // ---------------------------------------------------------------------

  /** What one step yields: the glyph to draw (0 while a sequence is open) and the new state word. */
  datatype Decoded = Decoded(glyph: u8, esc: u32)

  /** Continuation bytes still expected: `*esc >> 24`. */
  function Pending(esc: u32): nat
  {
    esc as int / 0x100_0000
  }

  /** The code-point bits gathered so far: the low 24 bits of the state word. */
  function Gathered(esc: u32): nat
  {
    esc as int % 0x100_0000
  }

  /** Top nibble 8 .. B: a continuation byte (section 3 of RFC 3629). */
  predicate IsContinuation(c: u8)
  {
    0x80 <= c < 0xC0
  }

  /** Top nibble C .. F: the lead byte of a multi-byte sequence. */
  predicate IsLead(c: u8)
  {
    0xC0 <= c
  }

  /** Continuation bytes a lead byte announces: top nibble C/D, E or F. */
  function LeadPending(c: u8): (n: nat)
    requires IsLead(c)
    ensures 1 <= n <= 3
  {
    if c < 0xE0 then 1 else if c < 0xF0 then 2 else 3
  }

  /** The code-point bits a lead byte carries: its low 5, 4 or 3 bits. */
  function LeadBits(c: u8): (bits: nat)
    requires IsLead(c)
    ensures bits < Pow2(6 - LeadPending(c))
  {
    c as int % Pow2(6 - LeadPending(c))
  }

  /**
   * The step is defined: a continuation byte needs a pending count of 1 to 3.
   * With none pending the source shifts by a negative amount, which C
   * leaves undefined.
   */
  predicate StepDefined(c: u8, esc: u32)
  {
    IsContinuation(c) ==> 1 <= Pending(esc) <= 3
  }

  /**
   * The state word a lead byte sets: `(n << 24) | (c & mask) << (6 * n)`
   * for top nibble C/D (n = 1, mask 0x1f), E (n = 2, mask 0x0f) and
   * F (n = 3, mask 0x07).
   */
  function Lead(c: u8): (w: u32)
    requires IsLead(c)
    ensures Pending(w) == LeadPending(c)
    ensures Gathered(w) == LeadBits(c) * Pow2(6 * LeadPending(c))
  {
    Pow2Values();
    var top := c / 0x10;                            // (c & 0xf0) >> 4
    if top == 0xC || top == 0xD then (0x100_0000 + (c as int % 0x20) * 0x40) as u32
    else if top == 0xE then (0x200_0000 + (c as int % 0x10) * 0x1000) as u32
    else (0x300_0000 + (c as int % 0x8) * 0x4_0000) as u32
  }

  /**
   * The state word after a continuation byte that is not the last:
   * `(shift << 24) | ucs | (c & 0x3f) << (shift * 6)`, with `shift` bytes
   * still to come and `ucs` the 16 bits kept so far. The pending count
   * sits above bit 24, clear of the rest, so its OR is a sum.
   */
  function Continued(shift: nat, ucs: nat, c: u8): (w: u32)
    requires 1 <= shift <= 2 && ucs < 0x1_0000
    ensures Pending(w) == shift
  {
    Pow2Values();
    (shift * 0x100_0000 + BitOr(ucs, (c as int % 0x40) * Pow2(6 * shift))) as u32
  }

  /**
   * What the state machine makes of one byte: a glyph to show at once, a
   * new state word while a sequence is open, or the completed 16-bit code
   * point.
   */
  datatype Progress = Emit(glyph: u8) | Open(esc: u32) | Complete(code: u16)

  /**
   * The state machine of `convert_utf8_to_cp437`. The gathered bits pass
   * through a 16-bit variable between bytes, so only their low 16 bits
   * survive a continuation byte.
   */
  function Assemble(c: u8, esc: u32): (p: Progress)
    requires StepDefined(c, esc)
    ensures c < 0x7F ==> p == Emit(c)
    ensures c == 0x7F ==> p == Emit(8)
    ensures c < 0x80 <==> p.Emit?
    ensures IsLead(c) ==>
              p.Open? && Pending(p.esc) == LeadPending(c) &&
              Gathered(p.esc) == LeadBits(c) * Pow2(6 * LeadPending(c))
    ensures IsContinuation(c) && Pending(esc) > 1 ==>
              p.Open? && Pending(p.esc) == Pending(esc) - 1
    ensures IsContinuation(c) && Pending(esc) == 1 <==> p.Complete?
    ensures p.Open? ==> 1 <= Pending(p.esc) <= 3
  {
    Pow2Values();
    if c < 0x7F then Emit(c)                        // ASCII
    else if c == 0x7F then Emit(8)                  // DEL
    else
      if IsLead(c) then Open(Lead(c))
      else
        var shift := Pending(esc) - 1;
        var ucs := esc as int % 0x1_0000;
        if shift != 0 then Open(Continued(shift, ucs, c))
        else
          Pow2Values();
          BitOrBound(ucs, c as int % 0x40, 16);
          Complete(BitOr(ucs, c as int % 0x40) as u16)
  }

  /** `convert_utf8_to_cp437`: feed one byte to the decoder in state `esc`. */
  function Step(c: u8, esc: u32): (r: Decoded)
    requires StepDefined(c, esc)
    ensures c < 0x7F ==> r == Decoded(c, esc)
    ensures c == 0x7F ==> r == Decoded(8, esc)
    ensures IsLead(c) ==> r.glyph == 0 && Pending(r.esc) == LeadPending(c)
    ensures IsContinuation(c) && Pending(esc) > 1 ==>
              r.glyph == 0 && Pending(r.esc) == Pending(esc) - 1
    ensures IsContinuation(c) && Pending(esc) == 1 ==> r.esc == 0
  {
    match Assemble(c, esc)
    case Emit(glyph) => Decoded(glyph, esc)
    case Open(next) => Decoded(0, next)
    case Complete(code) => Decoded(ConvertUc16(code), 0)
  }

  /**
   * The caller-owned state word `*esc`, which `convert_utf8_to_cp437`
   * overwrites in place.
   */
  class Utf8Decoder {
    var esc: u32

    constructor ()
      ensures esc == 0
    {
      esc := 0;
    }

    /** `convert_utf8_to_cp437(c, &esc)`. */
    method Convert(c: u8) returns (glyph: u8)
      requires StepDefined(c, esc)
      modifies this
      ensures Decoded(glyph, esc) == Step(c, old(esc))
    {
      if c < 127 {                                  // ASCII
        return c;
      }
      if c == 127 {                                 // DEL
        return 8;
      }
      var top := c / 0x10;
      if top == 0xC || top == 0xD {                 // two-byte sequence
        esc := (0x100_0000 + (c as int % 0x20) * 0x40) as u32;
        return 0;
      } else if top == 0xE {                        // three-byte sequence
        esc := (0x200_0000 + (c as int % 0x10) * 0x1000) as u32;
        return 0;
      } else if top == 0xF {                        // four-byte sequence
        esc := (0x300_0000 + (c as int % 0x8) * 0x4_0000) as u32;
        return 0;
      }
      // continuation byte
      var shift := Pending(esc) - 1;
      var ucs := esc as int % 0x1_0000;             // the uint16_t keeps the low 16 bits
      if shift != 0 {
        esc := Continued(shift, ucs, c);
        return 0;
      }
      esc := 0;
      Pow2Values();
      BitOrBound(ucs, c as int % 0x40, 16);
      glyph := ConvertUc16(BitOr(ucs, c as int % 0x40) as u16);
    }
  }

  // ---------------------------------------------------------------------
  // Byte strings
  // ---------------------------------------------------------------------

  /** The glyphs a run of the decoder yields, one per byte, and its final state. */
  datatype Run = Run(glyphs: seq<u8>, esc: u32)

  /** Every step of feeding `bs` from state `esc` is defined. */
  predicate RunDefined(bs: seq<u8>, esc: u32)
  {
    |bs| == 0 || (StepDefined(bs[0], esc) && RunDefined(bs[1..], Step(bs[0], esc).esc))
  }

  /** Feed the bytes of `bs` to the decoder one at a time, starting in state `esc`. */
  function Feed(bs: seq<u8>, esc: u32): (r: Run)
    requires RunDefined(bs, esc)
    ensures |r.glyphs| == |bs|
  {
    if |bs| == 0 then Run([], esc)
    else
      var d := Step(bs[0], esc);
      var rest := Feed(bs[1..], d.esc);
      Run([d.glyph] + rest.glyphs, rest.esc)
  }

  /** Feeding a byte and then the rest. */
  lemma FeedCons(b: u8, rest: seq<u8>, esc: u32)
    requires StepDefined(b, esc) && RunDefined(rest, Step(b, esc).esc)
    ensures RunDefined([b] + rest, esc)
    ensures Feed([b] + rest, esc) ==
              Run([Step(b, esc).glyph] + Feed(rest, Step(b, esc).esc).glyphs,
                  Feed(rest, Step(b, esc).esc).esc)
  {
    assert ([b] + rest)[1..] == rest;
  }

  /**
   * Feeding `a` and then `b` is feeding `a + b`: the decoder carries
   * nothing between calls but the state word.
   */
  lemma {:induction false} FeedAppend(a: seq<u8>, b: seq<u8>, esc: u32)
    requires RunDefined(a, esc) && RunDefined(b, Feed(a, esc).esc)
    ensures RunDefined(a + b, esc)
    ensures Feed(a + b, esc) ==
              Run(Feed(a, esc).glyphs + Feed(b, Feed(a, esc).esc).glyphs,
                  Feed(b, Feed(a, esc).esc).esc)
  {
    if |a| == 0 {
      assert a + b == b;
    } else {
      var e1 := Step(a[0], esc).esc;
      assert a == [a[0]] + a[1..];
      FeedCons(a[0], a[1..], esc);
      FeedAppend(a[1..], b, e1);
      FeedCons(a[0], a[1..] + b, esc);
      assert a + b == [a[0]] + (a[1..] + b);
    }
  }

  /** The continuation byte carrying the low six bits of `x`. */
  function ContinuationByte(x: nat): (c: u8)
    ensures IsContinuation(c) && c as int % 0x40 == x % 0x40
  {
    (0x80 + x % 0x40) as u8
  }

  /** The UTF-8 encoding of a code point, by the bit layout of section 3 of RFC 3629. */
  function Utf8Encode(cp: nat): (bs: seq<u8>)
    requires cp < 0x11_0000
    ensures 1 <= |bs| <= 4
  {
    if cp < 0x80 then [cp as u8]
    else if cp < 0x800 then [(0xC0 + cp / 0x40) as u8, ContinuationByte(cp)]
    else if cp < 0x1_0000 then
      [(0xE0 + cp / 0x1000) as u8, ContinuationByte(cp / 0x40), ContinuationByte(cp)]
    else
      [(0xF0 + cp / 0x4_0000) as u8, ContinuationByte(cp / 0x1000), ContinuationByte(cp / 0x40),
       ContinuationByte(cp)]
  }

  /**
   * The glyph the decoder shows for `cp`: DEL shows as glyph 8, and a code
   * point above U+FFFF keeps only its low 16 bits.
   */
  function Drawn(cp: nat): u8
    requires cp < 0x11_0000
  {
    if cp == 0x7F then 8 else ConvertUc16((cp % 0x1_0000) as u16)
  }

  function Zeros(n: nat): (z: seq<u8>)
    ensures |z| == n && forall k :: 0 <= k < n ==> z[k] == 0
  {
    seq(n, _ => 0)
  }

  /** `Step` in terms of `Assemble`, when the byte leaves a sequence open. */
  lemma StepOpens(c: u8, esc: u32, next: u32)
    requires StepDefined(c, esc) && Assemble(c, esc) == Open(next)
    ensures Step(c, esc) == Decoded(0, next)
  {
  }

  /** `Step` in terms of `Assemble`, when the byte completes the low 16 bits of `cp`. */
  lemma StepCompletes(c: u8, esc: u32, cp: nat)
    requires StepDefined(c, esc) && Assemble(c, esc).Complete?
    requires Assemble(c, esc).code as int == cp % 0x1_0000
    requires 0x7F != cp < 0x11_0000
    ensures Step(c, esc) == Decoded(Drawn(cp), 0)
  {
  }

  /** Feeding a byte that leaves a sequence open, and then the rest. */
  lemma FeedOpen(b: u8, rest: seq<u8>, e0: u32, e1: u32, gs: seq<u8>, e: u32)
    requires StepDefined(b, e0) && Step(b, e0) == Decoded(0, e1)
    requires RunDefined(rest, e1) && Feed(rest, e1) == Run(gs, e)
    ensures RunDefined([b] + rest, e0) && Feed([b] + rest, e0) == Run([0] + gs, e)
  {
    FeedCons(b, rest, e0);
  }

  /** The state word with `n` continuation bytes pending and bits `g` gathered. */
  function PendingWord(n: nat, g: nat): (w: u32)
    requires 1 <= n <= 3 && g < 0x100_0000
    ensures Pending(w) == n && Gathered(w) == g
  {
    (n * 0x100_0000 + g) as u32
  }

  /** A pending word's low 16 bits are those of the bits it gathered. */
  lemma PendingWordLow(n: nat, g: nat)
    requires 1 <= n <= 3 && g < 0x100_0000
    ensures PendingWord(n, g) as int % 0x1_0000 == g % 0x1_0000
  {
    var q, r := g / 0x1_0000, g % 0x1_0000;
    assert g == q * 0x1_0000 + r;
    var w := PendingWord(n, g) as int;
    assert w == n * 0x100_0000 + g;
    assert w == (n * 0x100 + q) * 0x1_0000 + r;
  }

  /**
   * A continuation byte in state `PendingWord(n, g)` with more bytes to
   * come: it keeps the low 16 bits of `g`, ORs its own six bits in at bit
   * `6 * (n - 1)` and leaves `n - 1` pending.
   */
  lemma ContinueOpen(c: u8, n: nat, g: nat)
    requires IsContinuation(c) && 2 <= n <= 3 && g < 0x100_0000
    ensures var bits := (c as int % 0x40) * Pow2(6 * (n - 1));
            BitOr(g % 0x1_0000, bits) < 0x100_0000 &&
            Assemble(c, PendingWord(n, g)) == Open(PendingWord(n - 1, BitOr(g % 0x1_0000, bits)))
  {
    var w := PendingWord(n, g);
    var ucs := g % 0x1_0000;
    var bits := (c as int % 0x40) * Pow2(6 * (n - 1));
    assert ucs < Pow2(18) && bits < Pow2(18) by {
      Pow2Values();
      if n == 2 {
        assert 6 * (n - 1) == 6;
      } else {
        assert 6 * (n - 1) == 12;
      }
    }
    BitOrBound(ucs, bits, 18);
    assert BitOr(ucs, bits) < 0x100_0000 by {
      Pow2Values();
    }
    assert Assemble(c, w) == Open(Continued(n - 1, ucs, c)) by {
      PendingWordLow(n, g);
    }
    assert Continued(n - 1, ucs, c) == PendingWord(n - 1, BitOr(ucs, bits));
  }

  /**
   * The continuation byte that completes a sequence: the code point is the
   * low 16 bits gathered, ORed with the byte's own six bits.
   */
  lemma ContinueComplete(c: u8, g: nat)
    requires IsContinuation(c) && g < 0x100_0000
    ensures var p := Assemble(c, PendingWord(1, g));
            p.Complete? && p.code as int == BitOr(g % 0x1_0000, c as int % 0x40)
  {
    PendingWordLow(1, g);
  }

  /** A lead byte announcing one continuation byte opens a sequence holding its five bits. */
  lemma LeadOfTwo(x: nat, esc: u32)
    requires x < 0x20
    ensures Assemble((0xC0 + x) as u8, esc) == Open(PendingWord(1, x * 0x40))
  {
  }

  /** A lead byte announcing two continuation bytes opens a sequence holding its four bits. */
  lemma LeadOfThree(x: nat, esc: u32)
    requires x < 0x10
    ensures Assemble((0xE0 + x) as u8, esc) == Open(PendingWord(2, x * 0x1000))
  {
  }

  /** A lead byte announcing three continuation bytes opens a sequence holding its three bits. */
  lemma LeadOfFour(x: nat, esc: u32)
    requires x < 0x8
    ensures Assemble((0xF0 + x) as u8, esc) == Open(PendingWord(3, x * 0x4_0000))
  {
  }

  /** The bits a continuation byte gathers with three bytes pending. */
  lemma ThreePendingBits(t: nat, y: nat)
    requires t < 0x8 && y < 0x40
    ensures (t * 0x4_0000) % 0x1_0000 == 0
    ensures BitOr(0, y * Pow2(12)) == y * 0x1000
  {
    Pow2Values();
    assert t * 0x4_0000 == (t * 4) * 0x1_0000;
  }

  /** The bits a continuation byte gathers with two bytes pending. */
  lemma TwoPendingBits(h: nat, y: nat)
    requires h < 0x40 && y < 0x40
    ensures (h * 0x1000) % 0x1_0000 == (h % 0x10) * 0x1000
    ensures BitOr((h % 0x10) * 0x1000, y * Pow2(6)) == (h % 0x10) * 0x1000 + y * 0x40
  {
    var r := h % 0x10;
    assert (h * 0x1000) % 0x1_0000 == r * 0x1000 by {
      assert h * 0x1000 == (h / 0x10) * 0x1_0000 + r * 0x1000;
    }
    assert BitOr(r * 0x1000, y * Pow2(6)) == r * 0x1000 + y * 0x40 by {
      Pow2Values();
      assert y * Pow2(6) == y * 0x40;
      assert r * Pow2(12) == r * 0x1000;
      BitOrDisjoint(r, 12, y * 0x40);
    }
  }

  /** The bits a continuation byte gathers with one byte pending. */
  lemma OnePendingBits(l: nat, y: nat)
    requires l < 0x400 && y < 0x40
    ensures (l * 0x40) % 0x1_0000 == l * 0x40
    ensures BitOr(l * 0x40, y) == l * 0x40 + y
  {
    Pow2Values();
    assert l * 0x40 < 0x1_0000;
    assert l * Pow2(6) == l * 0x40;
    BitOrDisjoint(l, 6, y);
  }

  /**
   * With three bytes pending, a continuation byte drops the lead byte's
   * bits (they sit above bit 16) and puts its own six bits at bit 12.
   */
  lemma ThreePending(t: nat, x: nat)
    requires t < 0x8
    ensures StepDefined(ContinuationByte(x), PendingWord(3, t * 0x4_0000))
    ensures Assemble(ContinuationByte(x), PendingWord(3, t * 0x4_0000)) ==
              Open(PendingWord(2, (x % 0x40) * 0x1000))
  {
    ContinueOpen(ContinuationByte(x), 3, t * 0x4_0000);
    ThreePendingBits(t, x % 0x40);
  }

  /**
   * With two bytes pending, a continuation byte keeps the low four of the
   * six bits above bit 12 and puts its own six bits at bit 6.
   */
  lemma TwoPending(h: nat, x: nat)
    requires h < 0x40
    ensures StepDefined(ContinuationByte(x), PendingWord(2, h * 0x1000))
    ensures Assemble(ContinuationByte(x), PendingWord(2, h * 0x1000)) ==
              Open(PendingWord(1, (h % 0x10) * 0x1000 + (x % 0x40) * 0x40))
  {
    ContinueOpen(ContinuationByte(x), 2, h * 0x1000);
    TwoPendingBits(h, x % 0x40);
  }

  /** With one byte pending, a continuation byte completes the code point. */
  lemma OnePending(l: nat, x: nat)
    requires l < 0x400
    ensures StepDefined(ContinuationByte(x), PendingWord(1, l * 0x40))
    ensures var p := Assemble(ContinuationByte(x), PendingWord(1, l * 0x40));
            p.Complete? && p.code as int == l * 0x40 + x % 0x40
  {
    ContinueComplete(ContinuationByte(x), l * 0x40);
    OnePendingBits(l, x % 0x40);
  }

  /** Feeding the last byte of a sequence. */
  lemma FeedLast(b: u8, e0: u32, g: u8)
    requires StepDefined(b, e0) && Step(b, e0) == Decoded(g, 0)
    ensures RunDefined([b], e0) && Feed([b], e0) == Run([g], 0)
  {
    FeedCons(b, [], e0);
  }

  /** Feeding a two-byte sequence, one byte at a time. */
  lemma FeedTwo(bs: seq<u8>, e0: u32, e1: u32, g: u8)
    requires |bs| == 2
    requires StepDefined(bs[0], e0) && Step(bs[0], e0) == Decoded(0, e1)
    requires StepDefined(bs[1], e1) && Step(bs[1], e1) == Decoded(g, 0)
    ensures RunDefined(bs, e0) && Feed(bs, e0) == Run([0, g], 0)
  {
    FeedLast(bs[1], e1, g);
    FeedOpen(bs[0], [bs[1]], e0, e1, [g], 0);
    assert bs == [bs[0]] + [bs[1]];
  }

  /** Feeding a three-byte sequence, one byte at a time. */
  lemma FeedThree(bs: seq<u8>, e0: u32, e1: u32, e2: u32, g: u8)
    requires |bs| == 3
    requires StepDefined(bs[0], e0) && Step(bs[0], e0) == Decoded(0, e1)
    requires StepDefined(bs[1], e1) && Step(bs[1], e1) == Decoded(0, e2)
    requires StepDefined(bs[2], e2) && Step(bs[2], e2) == Decoded(g, 0)
    ensures RunDefined(bs, e0) && Feed(bs, e0) == Run([0, 0, g], 0)
  {
    FeedTwo(bs[1..], e1, e2, g);
    FeedOpen(bs[0], bs[1..], e0, e1, [0, g], 0);
    assert bs == [bs[0]] + bs[1..];
  }

  /** Feeding a four-byte sequence, one byte at a time. */
  lemma FeedFour(bs: seq<u8>, e0: u32, e1: u32, e2: u32, e3: u32, g: u8)
    requires |bs| == 4
    requires StepDefined(bs[0], e0) && Step(bs[0], e0) == Decoded(0, e1)
    requires StepDefined(bs[1], e1) && Step(bs[1], e1) == Decoded(0, e2)
    requires StepDefined(bs[2], e2) && Step(bs[2], e2) == Decoded(0, e3)
    requires StepDefined(bs[3], e3) && Step(bs[3], e3) == Decoded(g, 0)
    ensures RunDefined(bs, e0) && Feed(bs, e0) == Run([0, 0, 0, g], 0)
  {
    FeedThree(bs[1..], e1, e2, e3, g);
    FeedOpen(bs[0], bs[1..], e0, e1, [0, 0, g], 0);
    assert bs == [bs[0]] + bs[1..];
  }

  /** How the bits of a code point below U+10000 split over six-bit groups. */
  lemma SixBitGroups(cp: nat)
    requires cp < 0x1_0000
    ensures cp / 0x40 < 0x400 && (cp / 0x40) * 0x40 + cp % 0x40 == cp
    ensures (cp / 0x1000) % 0x10 * 0x1000 + (cp / 0x40) % 0x40 * 0x40 == (cp / 0x40) * 0x40
  {
    var h := cp / 0x40;
    assert cp / 0x1000 == h / 0x40;
    assert h == (h / 0x40) * 0x40 + h % 0x40;
  }

  /**
   * The low 16 bits of a code point, as a four-byte encoding's last two
   * continuation bytes and the low four bits of the one before leave them.
   */
  lemma LowSixteen(cp: nat)
    ensures var l := (cp / 0x1000) % 0x40 % 0x10 * 0x40 + (cp / 0x40) % 0x40;
            l < 0x400 && l * 0x40 + cp % 0x40 == cp % 0x1_0000
  {
    var q1 := cp / 0x40;
    var q2 := q1 / 0x40;
    var q3 := q2 / 0x10;
    assert cp == q1 * 0x40 + cp % 0x40;
    assert q1 == q2 * 0x40 + q1 % 0x40;
    assert q2 == q3 * 0x10 + q2 % 0x10;
    assert cp / 0x1000 == q2;
    assert q2 % 0x40 % 0x10 == q2 % 0x10;
    var l := q2 % 0x10 * 0x40 + q1 % 0x40;
    assert cp == q3 * 0x1_0000 + (l * 0x40 + cp % 0x40);
  }

  /** The last byte of an encoding, which completes the low 16 bits of `cp`. */
  lemma LastByte(l: nat, x: nat, cp: nat)
    requires l < 0x400 && l * 0x40 + x % 0x40 == cp % 0x1_0000
    requires 0x7F != cp < 0x11_0000
    ensures StepDefined(ContinuationByte(x), PendingWord(1, l * 0x40))
    ensures Step(ContinuationByte(x), PendingWord(1, l * 0x40)) == Decoded(Drawn(cp), 0)
  {
    OnePending(l, x);
    StepCompletes(ContinuationByte(x), PendingWord(1, l * 0x40), cp);
  }

  /** Feeding a one-byte encoding: an ASCII byte or DEL, shown at once. */
  lemma DecodeOne(cp: nat, esc: u32)
    requires cp < 0x80
    ensures RunDefined(Utf8Encode(cp), esc)
    ensures Feed(Utf8Encode(cp), esc) == Run(Zeros(0) + [Drawn(cp)], esc)
  {
    assert Utf8Encode(cp)[1..] == [];
  }

  /** The bytes of a two-byte encoding. */
  lemma EncodeTwo(cp: nat)
    requires 0x80 <= cp < 0x800
    ensures Utf8Encode(cp) == [(0xC0 + cp / 0x40) as u8, ContinuationByte(cp)]
  {
  }

  /** The last byte of a two-byte encoding. */
  lemma LastOfTwo(cp: nat)
    requires 0x80 <= cp < 0x800
    ensures StepDefined(ContinuationByte(cp), PendingWord(1, (cp / 0x40) * 0x40))
    ensures Step(ContinuationByte(cp), PendingWord(1, (cp / 0x40) * 0x40)) == Decoded(Drawn(cp), 0)
  {
    SixBitGroups(cp);
    LastByte(cp / 0x40, cp, cp);
  }

  /** Feeding a two-byte encoding. */
  lemma DecodeTwo(cp: nat, esc: u32)
    requires 0x80 <= cp < 0x800
    ensures RunDefined(Utf8Encode(cp), esc)
    ensures Feed(Utf8Encode(cp), esc) == Run([0, Drawn(cp)], 0)
  {
    var e1 := PendingWord(1, (cp / 0x40) * 0x40);
    EncodeTwo(cp);
    LeadOfTwo(cp / 0x40, esc);
    StepOpens((0xC0 + cp / 0x40) as u8, esc, e1);
    LastOfTwo(cp);
    FeedTwo(Utf8Encode(cp), esc, e1, Drawn(cp));
  }

  /** The middle byte of a three-byte encoding. */
  lemma SecondOfThree(cp: nat)
    requires 0x800 <= cp < 0x1_0000
    ensures StepDefined(ContinuationByte(cp / 0x40), PendingWord(2, (cp / 0x1000) * 0x1000))
    ensures Assemble(ContinuationByte(cp / 0x40), PendingWord(2, (cp / 0x1000) * 0x1000)) ==
              Open(PendingWord(1, (cp / 0x40) * 0x40))
  {
    SixBitGroups(cp);
    TwoPending(cp / 0x1000, cp / 0x40);
  }

  /** The last byte of a three-byte encoding. */
  lemma LastOfThree(cp: nat)
    requires 0x800 <= cp < 0x1_0000
    ensures StepDefined(ContinuationByte(cp), PendingWord(1, (cp / 0x40) * 0x40))
    ensures Step(ContinuationByte(cp), PendingWord(1, (cp / 0x40) * 0x40)) == Decoded(Drawn(cp), 0)
  {
    SixBitGroups(cp);
    LastByte(cp / 0x40, cp, cp);
  }

  /** The bytes of a three-byte encoding. */
  lemma EncodeThree(cp: nat)
    requires 0x800 <= cp < 0x1_0000
    ensures Utf8Encode(cp) ==
              [(0xE0 + cp / 0x1000) as u8, ContinuationByte(cp / 0x40), ContinuationByte(cp)]
  {
  }

  /** Feeding a three-byte encoding. */
  lemma DecodeThree(cp: nat, esc: u32)
    requires 0x800 <= cp < 0x1_0000
    ensures RunDefined(Utf8Encode(cp), esc)
    ensures Feed(Utf8Encode(cp), esc) == Run([0, 0, Drawn(cp)], 0)
  {
    var e1 := PendingWord(2, (cp / 0x1000) * 0x1000);
    var e2 := PendingWord(1, (cp / 0x40) * 0x40);
    EncodeThree(cp);
    LeadOfThree(cp / 0x1000, esc);
    StepOpens((0xE0 + cp / 0x1000) as u8, esc, e1);
    SecondOfThree(cp);
    StepOpens(ContinuationByte(cp / 0x40), e1, e2);
    LastOfThree(cp);
    FeedThree(Utf8Encode(cp), esc, e1, e2, Drawn(cp));
  }

  /** The bytes of a four-byte encoding. */
  lemma EncodeFour(cp: nat)
    requires 0x1_0000 <= cp < 0x11_0000
    ensures Utf8Encode(cp) ==
              [(0xF0 + cp / 0x4_0000) as u8, ContinuationByte(cp / 0x1000),
               ContinuationByte(cp / 0x40), ContinuationByte(cp)]
  {
  }

  /** The last byte of a four-byte encoding: only the low 16 bits survive. */
  lemma LastOfFour(cp: nat)
    requires 0x1_0000 <= cp < 0x11_0000
    ensures var l := (cp / 0x1000) % 0x40 % 0x10 * 0x40 + (cp / 0x40) % 0x40;
            l < 0x400 &&
            StepDefined(ContinuationByte(cp), PendingWord(1, l * 0x40)) &&
            Step(ContinuationByte(cp), PendingWord(1, l * 0x40)) == Decoded(Drawn(cp), 0)
  {
    LowSixteen(cp);
    LastByte((cp / 0x1000) % 0x40 % 0x10 * 0x40 + (cp / 0x40) % 0x40, cp, cp);
  }

  /** The lead byte of a four-byte encoding. */
  lemma FirstOfFour(cp: nat, esc: u32)
    requires 0x1_0000 <= cp < 0x11_0000
    ensures StepDefined((0xF0 + cp / 0x4_0000) as u8, esc)
    ensures Step((0xF0 + cp / 0x4_0000) as u8, esc) ==
              Decoded(0, PendingWord(3, (cp / 0x4_0000) * 0x4_0000))
  {
    LeadOfFour(cp / 0x4_0000, esc);
    StepOpens((0xF0 + cp / 0x4_0000) as u8, esc, PendingWord(3, (cp / 0x4_0000) * 0x4_0000));
  }

  /** The second byte of a four-byte encoding. */
  lemma SecondOfFour(cp: nat)
    requires 0x1_0000 <= cp < 0x11_0000
    ensures StepDefined(ContinuationByte(cp / 0x1000), PendingWord(3, (cp / 0x4_0000) * 0x4_0000))
    ensures Step(ContinuationByte(cp / 0x1000), PendingWord(3, (cp / 0x4_0000) * 0x4_0000)) ==
              Decoded(0, PendingWord(2, (cp / 0x1000) % 0x40 * 0x1000))
  {
    ThreePending(cp / 0x4_0000, cp / 0x1000);
    StepOpens(ContinuationByte(cp / 0x1000), PendingWord(3, (cp / 0x4_0000) * 0x4_0000),
              PendingWord(2, (cp / 0x1000) % 0x40 * 0x1000));
  }

  /** The third byte of a four-byte encoding, which drops the bits above the low 16. */
  lemma ThirdOfFour(cp: nat)
    requires 0x1_0000 <= cp < 0x11_0000
    ensures var h := (cp / 0x1000) % 0x40;
            var l := h % 0x10 * 0x40 + (cp / 0x40) % 0x40;
            StepDefined(ContinuationByte(cp / 0x40), PendingWord(2, h * 0x1000)) &&
            l < 0x400 &&
            Step(ContinuationByte(cp / 0x40), PendingWord(2, h * 0x1000)) == Decoded(0, PendingWord(1, l * 0x40))
  {
    var h := (cp / 0x1000) % 0x40;
    var l := h % 0x10 * 0x40 + (cp / 0x40) % 0x40;
    TwoPending(h, cp / 0x40);
    assert (h % 0x10) * 0x1000 + ((cp / 0x40) % 0x40) * 0x40 == l * 0x40;
    StepOpens(ContinuationByte(cp / 0x40), PendingWord(2, h * 0x1000), PendingWord(1, l * 0x40));
  }

  /** Feeding a four-byte encoding: only the low 16 bits of the code point survive. */
  lemma DecodeFour(cp: nat, esc: u32)
    requires 0x1_0000 <= cp < 0x11_0000
    ensures RunDefined(Utf8Encode(cp), esc)
    ensures Feed(Utf8Encode(cp), esc) == Run([0, 0, 0, Drawn(cp)], 0)
  {
    var h := (cp / 0x1000) % 0x40;
    var l := h % 0x10 * 0x40 + (cp / 0x40) % 0x40;
    EncodeFour(cp);
    FirstOfFour(cp, esc);
    SecondOfFour(cp);
    ThirdOfFour(cp);
    LastOfFour(cp);
    FeedFour(Utf8Encode(cp), esc, PendingWord(3, (cp / 0x4_0000) * 0x4_0000),
             PendingWord(2, h * 0x1000), PendingWord(1, l * 0x40), Drawn(cp));
  }

  /**
   * Feeding the encoding of one code point yields 0 for every byte but the
   * last, which yields the code point's glyph, and leaves the decoder idle.
   * The state it starts from does not matter, so an interrupted sequence
   * does not spoil the next one.
   */
  lemma EncodeThenDecode(cp: nat, esc: u32)
    requires cp < 0x11_0000
    ensures RunDefined(Utf8Encode(cp), esc)
    ensures Feed(Utf8Encode(cp), esc) ==
              Run(Zeros(|Utf8Encode(cp)| - 1) + [Drawn(cp)], if cp < 0x80 then esc else 0)
  {
    var bs := Utf8Encode(cp);
    if cp < 0x80 {
      DecodeOne(cp, esc);
    } else if cp < 0x800 {
      assert RunDefined(bs, esc) && |bs| == 2 && Feed(bs, esc) == Run(Zeros(1) + [Drawn(cp)], 0) by {
        DecodeTwo(cp, esc);
        assert Zeros(1) == [0];
      }
    } else if cp < 0x1_0000 {
      assert RunDefined(bs, esc) && |bs| == 3 && Feed(bs, esc) == Run(Zeros(2) + [Drawn(cp)], 0) by {
        DecodeThree(cp, esc);
        assert Zeros(2) == [0, 0];
      }
    } else {
      assert RunDefined(bs, esc) && |bs| == 4 && Feed(bs, esc) == Run(Zeros(3) + [Drawn(cp)], 0) by {
        DecodeFour(cp, esc);
        assert Zeros(3) == [0, 0, 0];
      }
    }
  }

  /** A text of code points, encoded one after another. */
  function EncodeText(cps: seq<nat>): (bs: seq<u8>)
    requires forall k :: 0 <= k < |cps| ==> cps[k] < 0x11_0000
    ensures |cps| <= |bs| <= 4 * |cps|
  {
    if |cps| == 0 then [] else Utf8Encode(cps[0]) + EncodeText(cps[1..])
  }

  /**
   * What the console shows for a text: each code point's glyph, preceded
   * by a 0 for every byte of its encoding but the last.
   */
  function Rendered(cps: seq<nat>): (gs: seq<u8>)
    requires forall k :: 0 <= k < |cps| ==> cps[k] < 0x11_0000
  {
    if |cps| == 0 then []
    else Zeros(|Utf8Encode(cps[0])| - 1) + [Drawn(cps[0])] + Rendered(cps[1..])
  }

  /**
   * Decoding a whole text from the idle state shows every code point's
   * glyph in turn and ends idle.
   */
  lemma {:induction false} DecodeText(cps: seq<nat>)
    requires forall k :: 0 <= k < |cps| ==> cps[k] < 0x11_0000
    ensures RunDefined(EncodeText(cps), 0)
    ensures Feed(EncodeText(cps), 0) == Run(Rendered(cps), 0)
  {
    if |cps| > 0 {
      EncodeThenDecode(cps[0], 0);
      DecodeText(cps[1..]);
      FeedAppend(Utf8Encode(cps[0]), EncodeText(cps[1..]), 0);
    }
  }

  /**
   * The three bytes E2 94 80 spell U+2500, the light horizontal line, glyph
   * 196, whatever state the decoder was left in.
   */
  lemma HorizontalLineExample(esc: u32)
    ensures RunDefined([0xE2, 0x94, 0x80], esc)
    ensures Feed([0xE2, 0x94, 0x80], esc) == Run([0, 0, 196], 0)
  {
    HorizontalLineBytes();
    HorizontalLineGlyph();
    DecodeThree(0x2500, esc);
  }

  /** The encoding of U+2500. */
  lemma HorizontalLineBytes()
    ensures Utf8Encode(0x2500) == [0xE2, 0x94, 0x80]
  {
    EncodeThree(0x2500);
  }

  /** The glyph of U+2500. */
  lemma HorizontalLineGlyph()
    ensures Drawn(0x2500) == 196
  {
    assert Cp437Glyph(196) == 0x2500;
    RoundTrip(196);
  }
}
