/**
 * The fixed wplace palette: 31 colours written as ARGB hex strings and
 * parsed once, at start-up, into RGB triples (`hexToRGB`, `PAL_RGB`).
 */
module Palette {
  import opened Pixels

  predicate IsHexDigit(ch: char)
  {
    ('0' <= ch <= '9') || ('A' <= ch <= 'F') || ('a' <= ch <= 'f')
  }

  /** The value of one hexadecimal digit, as `parseInt(_, 16)` reads it. */
  function HexDigitValue(ch: char): (v: nat)
    requires IsHexDigit(ch)
    ensures v < 16
  {
    if '0' <= ch <= '9' then ch as nat - '0' as nat
    else if 'A' <= ch <= 'F' then ch as nat - 'A' as nat + 10
    else ch as nat - 'a' as nat + 10
  }

  /** The upper-case hexadecimal digit of a value below 16. */
  function HexDigit(v: nat): (ch: char)
    requires v < 16
    ensures IsHexDigit(ch) && HexDigitValue(ch) == v
  {
    if v < 10 then ('0' as nat + v) as char else ('A' as nat + v - 10) as char
  }

  /** A well-formed ARGB colour: eight hexadecimal digits. */
  predicate IsArgbHex(hex: string)
  {
    && |hex| == 8
    && IsHexDigit(hex[0]) && IsHexDigit(hex[1]) && IsHexDigit(hex[2]) && IsHexDigit(hex[3])
    && IsHexDigit(hex[4]) && IsHexDigit(hex[5]) && IsHexDigit(hex[6]) && IsHexDigit(hex[7])
  }

  /** `parseInt(s, 16)` on a two-digit string. */
  function ParseHexByte(s: string): Byte
    requires |s| == 2 && IsHexDigit(s[0]) && IsHexDigit(s[1])
  {
    16 * HexDigitValue(s[0]) + HexDigitValue(s[1])
  }

  /**
   * `hexToRGB`: the red, green and blue bytes of an ARGB string; the leading
   * alpha byte (characters 0 and 1) is dropped.
   */
  function HexToRgb(hex: string): Rgb
    requires IsArgbHex(hex)
  {
    Rgb(ParseHexByte(hex[2..4]), ParseHexByte(hex[4..6]), ParseHexByte(hex[6..8]))
  }

  /** Two upper-case hexadecimal digits for a byte. */
  function FormatHexByte(v: Byte): (s: string)
    ensures |s| == 2 && IsHexDigit(s[0]) && IsHexDigit(s[1])
  {
    [HexDigit(v / 16), HexDigit(v % 16)]
  }

  /** The upper-case ARGB string of an alpha byte and a colour. */
  function FormatArgb(a: Byte, c: Rgb): (hex: string)
    ensures IsArgbHex(hex)
  {
    FormatHexByte(a) + FormatHexByte(c.r) + FormatHexByte(c.g) + FormatHexByte(c.b)
  }

  predicate IsUpperHexDigit(ch: char)
  {
    ('0' <= ch <= '9') || ('A' <= ch <= 'F')
  }

  lemma ParseFormatHexByte(v: Byte)
    ensures ParseHexByte(FormatHexByte(v)) == v
  {
  }

  lemma FormatParseHexByte(s: string)
    requires |s| == 2 && IsUpperHexDigit(s[0]) && IsUpperHexDigit(s[1])
    ensures FormatHexByte(ParseHexByte(s)) == s
  {
    var v := ParseHexByte(s);
    assert v / 16 == HexDigitValue(s[0]) && v % 16 == HexDigitValue(s[1]);
  }

  /** Parsing a formatted ARGB string gives back its colour, whatever its alpha. */
  lemma HexToRgbFormat(a: Byte, c: Rgb)
    ensures HexToRgb(FormatArgb(a, c)) == c
  {
    var hex := FormatArgb(a, c);
    assert hex[2..4] == FormatHexByte(c.r);
    assert hex[4..6] == FormatHexByte(c.g);
    assert hex[6..8] == FormatHexByte(c.b);
    ParseFormatHexByte(c.r);
    ParseFormatHexByte(c.g);
    ParseFormatHexByte(c.b);
  }

  /** Formatting the parsed colour with the string's own alpha gives back an upper-case string. */
  lemma FormatHexToRgb(hex: string)
    requires |hex| == 8
    requires IsUpperHexDigit(hex[0]) && IsUpperHexDigit(hex[1]) && IsUpperHexDigit(hex[2]) && IsUpperHexDigit(hex[3])
    requires IsUpperHexDigit(hex[4]) && IsUpperHexDigit(hex[5]) && IsUpperHexDigit(hex[6]) && IsUpperHexDigit(hex[7])
    ensures FormatArgb(ParseHexByte(hex[0..2]), HexToRgb(hex)) == hex
  {
    FormatParseHexByte(hex[0..2]);
    FormatParseHexByte(hex[2..4]);
    FormatParseHexByte(hex[4..6]);
    FormatParseHexByte(hex[6..8]);
    assert hex == hex[0..2] + hex[2..4] + hex[4..6] + hex[6..8];
  }

  /**
   * `WPLACE_PALETTE_HEX`, in the three lines the table is written in:
   * 10, 10 and 11 opaque ARGB colours.
   */
  const PALETTE_HEX_LINE_1: seq<string> := ["FF000000", "FF3C3C3C", "FF787878", "FFD2D2D2", "FFFFFFFF", "FF5B031A", "FFE2242E", "FFF58032", "FFEFAA1F", "FFF5DD42"]
  const PALETTE_HEX_LINE_2: seq<string> := ["FFFEFABD", "FF3EB867", "FF4FE57A", "FF96FE5F", "FF2C816D", "FF3EADA5", "FF50E0BD", "FF7CF6F1", "FF31509D", "FF5293E3"]
  const PALETTE_HEX_LINE_3: seq<string> := ["FF6D52F5", "FF9DB1FA", "FF741299", "FFA43BB9", "FFDCA0F9", "FFC20F7B", "FFE12782", "FFEB8EAA", "FF654635", "FF91682D", "FFF2B27A"]
  const PALETTE_HEX: seq<string> := PALETTE_HEX_LINE_1 + PALETTE_HEX_LINE_2 + PALETTE_HEX_LINE_3

  /** An opaque colour written in upper case: "FF" followed by six upper-case digits. */
  predicate IsOpaqueUpperHex(hex: string)
  {
    && |hex| == 8 && hex[0] == 'F' && hex[1] == 'F'
    && IsUpperHexDigit(hex[2]) && IsUpperHexDigit(hex[3]) && IsUpperHexDigit(hex[4])
    && IsUpperHexDigit(hex[5]) && IsUpperHexDigit(hex[6]) && IsUpperHexDigit(hex[7])
  }

  /** Entry by entry, each line of the table holds opaque upper-case colours. */
  lemma Line1OpaqueUpperHex()
    ensures forall h :: h in PALETTE_HEX_LINE_1 ==> IsOpaqueUpperHex(h)
  {
  }

  lemma Line2OpaqueUpperHex()
    ensures forall h :: h in PALETTE_HEX_LINE_2 ==> IsOpaqueUpperHex(h)
  {
  }

  lemma Line3OpaqueUpperHex()
    ensures forall h :: h in PALETTE_HEX_LINE_3 ==> IsOpaqueUpperHex(h)
  {
  }

  lemma PaletteHexOpaqueUpper(i: nat)
    requires i < |PALETTE_HEX|
    ensures IsOpaqueUpperHex(PALETTE_HEX[i])
  {
    var h := PALETTE_HEX[i];
    if i < 10 {
      Line1OpaqueUpperHex();
      assert h == PALETTE_HEX_LINE_1[i] && h in PALETTE_HEX_LINE_1;
    } else if i < 20 {
      Line2OpaqueUpperHex();
      assert h == PALETTE_HEX_LINE_2[i - 10] && h in PALETTE_HEX_LINE_2;
    } else {
      Line3OpaqueUpperHex();
      assert h == PALETTE_HEX_LINE_3[i - 20] && h in PALETTE_HEX_LINE_3;
    }
  }

  lemma PaletteHexWellFormed()
    ensures |PALETTE_HEX| == 31
    ensures forall i :: 0 <= i < |PALETTE_HEX| ==> IsArgbHex(PALETTE_HEX[i])
  {
    forall i | 0 <= i < |PALETTE_HEX| ensures IsArgbHex(PALETTE_HEX[i]) {
      PaletteHexOpaqueUpper(i);
    }
  }

  /** `hexes.map(hexToRGB)` over a table of well-formed entries. */
  function ParseAll(hexes: seq<string>): seq<Rgb>
    requires forall i :: 0 <= i < |hexes| ==> IsArgbHex(hexes[i])
  {
    seq(|hexes|, i requires 0 <= i < |hexes| => HexToRgb(hexes[i]))
  }

  /** `PAL_RGB`: the table parsed entry by entry with `hexToRGB`. */
  const PAL_RGB: seq<Rgb> := (PaletteHexWellFormed(); ParseAll(PALETTE_HEX))

  /** Pairwise distinct elements. */
  ghost predicate Distinct<T>(s: seq<T>)
  {
    forall i, j :: 0 <= i < j < |s| ==> s[i] != s[j]
  }

  /** A sequence none of whose elements occurs again later on is pairwise distinct. */
  lemma DistinctOfSuffixes<T>(s: seq<T>)
    requires forall k :: 0 <= k < |s| ==> s[k] !in s[k + 1..]
    ensures Distinct(s)
  {
    forall i, j | 0 <= i < j < |s| ensures s[i] != s[j] {
      assert s[j] == s[i + 1..][j - i - 1];
    }
  }

  lemma DistinctConcat<T>(a: seq<T>, b: seq<T>)
    requires Distinct(a) && Distinct(b)
    requires forall x :: x in a ==> x !in b
    ensures Distinct(a + b)
  {
    forall i, j | 0 <= i < j < |a + b| ensures (a + b)[i] != (a + b)[j] {
      if i < |a| <= j {
        assert (a + b)[i] in a && (a + b)[j] == b[j - |a|];
      }
    }
  }

  /**
   * Position by position: no colour of a line occurs again later in that
   * line (the position lists make the verifier go through the cases).
   */
  lemma Line1Distinct()
    ensures Distinct(PALETTE_HEX_LINE_1)
  {
    var line := PALETTE_HEX_LINE_1;
    assert forall k :: k in [0, 1, 2, 3, 4, 5, 6, 7, 8, 9] ==> line[k] !in line[k + 1..];
    forall k | 0 <= k < |line| ensures line[k] !in line[k + 1..] {
      assert k in [0, 1, 2, 3, 4, 5, 6, 7, 8, 9];
    }
    DistinctOfSuffixes(line);
  }

  lemma Line2Distinct()
    ensures Distinct(PALETTE_HEX_LINE_2)
  {
    var line := PALETTE_HEX_LINE_2;
    assert forall k :: k in [0, 1, 2, 3, 4, 5, 6, 7, 8, 9] ==> line[k] !in line[k + 1..];
    forall k | 0 <= k < |line| ensures line[k] !in line[k + 1..] {
      assert k in [0, 1, 2, 3, 4, 5, 6, 7, 8, 9];
    }
    DistinctOfSuffixes(line);
  }

  lemma Line3Distinct()
    ensures Distinct(PALETTE_HEX_LINE_3)
  {
    var line := PALETTE_HEX_LINE_3;
    assert forall k :: k in [0, 1, 2, 3, 4, 5, 6, 7, 8, 9, 10] ==> line[k] !in line[k + 1..];
    forall k | 0 <= k < |line| ensures line[k] !in line[k + 1..] {
      assert k in [0, 1, 2, 3, 4, 5, 6, 7, 8, 9, 10];
    }
    DistinctOfSuffixes(line);
  }

  /** No colour occurs in two lines. */
  lemma LinesDisjoint()
    ensures forall h :: h in PALETTE_HEX_LINE_1 ==> h !in PALETTE_HEX_LINE_2 && h !in PALETTE_HEX_LINE_3
    ensures forall h :: h in PALETTE_HEX_LINE_2 ==> h !in PALETTE_HEX_LINE_3
  {
  }

  lemma PaletteHexDistinct()
    ensures Distinct(PALETTE_HEX)
  {
    Line1Distinct();
    Line2Distinct();
    Line3Distinct();
    LinesDisjoint();
    DistinctConcat(PALETTE_HEX_LINE_1, PALETTE_HEX_LINE_2);
    DistinctConcat(PALETTE_HEX_LINE_1 + PALETTE_HEX_LINE_2, PALETTE_HEX_LINE_3);
  }

  /** Two opaque upper-case strings that parse to the same colour are equal. */
  lemma HexToRgbInjective(h1: string, h2: string)
    requires IsOpaqueUpperHex(h1) && IsOpaqueUpperHex(h2)
    requires HexToRgb(h1) == HexToRgb(h2)
    ensures h1 == h2
  {
    FormatHexToRgb(h1);
    FormatHexToRgb(h2);
    assert h1[0..2] == h2[0..2] == "FF";
  }

  /** The palette has 31 entries. */
  lemma PaletteSize()
    ensures |PAL_RGB| == 31
  {
    PaletteHexWellFormed();
  }

  /**
   * The parsed palette: 31 pairwise distinct colours, black at entry 0 and
   * white at entry 4 (channels are bytes by type).
   */
  lemma PaletteFacts()
    ensures |PAL_RGB| == 31
    ensures PAL_RGB[0] == Rgb(0, 0, 0) && PAL_RGB[4] == Rgb(255, 255, 255)
    ensures Distinct(PAL_RGB)
  {
    PaletteHexDistinct();
    forall i, j | 0 <= i < j < |PAL_RGB| ensures PAL_RGB[i] != PAL_RGB[j] {
      if PAL_RGB[i] == PAL_RGB[j] {
        PaletteHexOpaqueUpper(i);
        PaletteHexOpaqueUpper(j);
        HexToRgbInjective(PALETTE_HEX[i], PALETTE_HEX[j]);
      }
    }
    assert PALETTE_HEX[0] == "FF000000" && PALETTE_HEX[4] == "FFFFFFFF";
  }
}
