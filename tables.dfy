/**
 * The closed vocabularies of the teletext pages (texttv/tbls.py): colour
 * tokens, text-attribute tokens and the mosaic-code to block-glyph table.
 * The curses colour and attribute constants are opaque: they are modelled
 * as the constructors of `Color` and `Attr`.
 */
module Tables {
  import opened PyText

  datatype Color =
    | ColorWhite | ColorBlue | ColorBlack | ColorYellow
    | ColorCyan | ColorRed | ColorGreen | ColorMagenta

  datatype Attr = ANormal | ABold | AUnderline

  /** `color_tbl`: class token to curses colour. */
  const ColorTbl: map<string, Color> := map[
    "W" := ColorWhite, "B" := ColorBlue, "BK" := ColorBlack, "Y" := ColorYellow,
    "C" := ColorCyan, "R" := ColorRed, "G" := ColorGreen, "M" := ColorMagenta]

  /** `attr_tbl`: text-attribute token to curses attribute ('DH' is double height, shown bold). */
  const AttrTbl: map<string, Attr> := map["0" := ANormal, "DH" := ABold, "UL" := AUnderline]

  /**
   * `header_tbl`: the digits of a span's background style to a Block Elements
   * glyph. The dict literal is written as the union of 8 displays that
   * follow the literal's order; a later key wins both in a dict literal and
   * in `+` on maps, so the union is the same map.
   */
  const HeaderTbl: map<string, char> :=
    HeaderPart1 + HeaderPart2 + HeaderPart3 + HeaderPart4 + HeaderPart5 + HeaderPart6 + HeaderPart7 + HeaderPart8

  const HeaderPart1: map<string, char> := map[
    "96" := '\U{2597}', "40" := '\U{2597}', "48" := '\U{2596}', "36" := '\U{2596}',
    "124" := '\U{2588}', "127" := '\U{2588}', "47" := '\U{2588}']

  const HeaderPart2: map<string, char> := map[
    "115" := '\U{2588}', "119" := '\U{2588}', "44" := '\U{2580}', "35" := '\U{2580}',
    "51" := '\U{2580}', "112" := '\U{2584}', "114" := '\U{2584}']

  const HeaderPart3: map<string, char> := map[
    "104" := '\U{2590}', "106" := '\U{2590}', "52" := '\U{258C}', "53" := '\U{258C}',
    "42" := '\U{2590}', "34" := '\U{259D}', "98" := '\U{259D}']

  const HeaderPart4: map<string, char> := map[
    "33" := '\U{2598}', "49" := '\U{2598}', "37" := '\U{258C}', "117" := '\U{2599}',
    "109" := '\U{2599}', "45" := '\U{2599}']

  const HeaderPart5: map<string, char> := map[
    "125" := '\U{2599}', "116" := '\U{2599}', "63" := '\U{2588}', "123" := '\U{2588}',
    "110" := '\U{259C}', "111" := '\U{2588}']

  const HeaderPart6: map<string, char> := map[
    "39" := '\U{259B}', "61" := '\U{259B}', "55" := '\U{259B}', "126" := '\U{259F}',
    "122" := '\U{259F}', "120" := '\U{259F}']

  const HeaderPart7: map<string, char> := map[
    "107" := '\U{259C}', "43" := '\U{259C}', "38" := '\U{259E}', "58" := '\U{259E}',
    "54" := '\U{259E}', "105" := '\U{259A}']

  const HeaderPart8: map<string, char> := map[
    "121" := '\U{259A}', "101" := '\U{259A}', "57" := '\U{259A}', "41" := '\U{259A}',
    "102" := '\U{259E}', "62" := '\U{259E}']

  /** The colour vocabulary is exactly the eight teletext colours. */
  lemma ColorTblKeys()
    ensures ColorTbl.Keys == {"W", "B", "BK", "Y", "C", "R", "G", "M"}
  {
  }

  /** The attribute vocabulary is exactly '0', 'DH' and 'UL'; the link marker 'UL' renders as underline. */
  lemma AttrTblKeys()
    ensures AttrTbl.Keys == {"0", "DH", "UL"}
    ensures "UL" in AttrTbl && AttrTbl["UL"] == AUnderline
  {
  }

  /** A mosaic code: the teletext character ranges 33..63 and 96..127. */
  predicate MosaicCode(n: nat) {
    33 <= n <= 63 || 96 <= n <= 127
  }

  /** `header_tbl` has 51 distinct keys. */
  lemma HeaderTblSize()
    ensures |HeaderTbl| == 51
  {
    HeaderPart1Size();
    HeaderPart2Size();
    HeaderPart3Size();
    HeaderPart4Size();
    HeaderPart5Size();
    HeaderPart6Size();
    HeaderPart7Size();
    HeaderPart8Size();
    Disjoint12();
    Disjoint13();
    Disjoint14();
    Disjoint15();
    Disjoint16();
    Disjoint17();
    Disjoint18();
    Disjoint23();
    Disjoint24();
    Disjoint25();
    Disjoint26();
    Disjoint27();
    Disjoint28();
    Disjoint34();
    Disjoint35();
    Disjoint36();
    Disjoint37();
    Disjoint38();
    Disjoint45();
    Disjoint46();
    Disjoint47();
    Disjoint48();
    Disjoint56();
    Disjoint57();
    Disjoint58();
    Disjoint67();
    Disjoint68();
    Disjoint78();
    DisjointUnionSize(HeaderPart1, HeaderPart2);
    DisjointUnionSize(HeaderPart1 + HeaderPart2, HeaderPart3);
    DisjointUnionSize(HeaderPart1 + HeaderPart2 + HeaderPart3, HeaderPart4);
    DisjointUnionSize(HeaderPart1 + HeaderPart2 + HeaderPart3 + HeaderPart4, HeaderPart5);
    DisjointUnionSize(HeaderPart1 + HeaderPart2 + HeaderPart3 + HeaderPart4 + HeaderPart5, HeaderPart6);
    DisjointUnionSize(HeaderPart1 + HeaderPart2 + HeaderPart3 + HeaderPart4 + HeaderPart5 + HeaderPart6, HeaderPart7);
    DisjointUnionSize(HeaderPart1 + HeaderPart2 + HeaderPart3 + HeaderPart4 + HeaderPart5 + HeaderPart6 + HeaderPart7, HeaderPart8);
  }

  /**
   * Every key of `header_tbl` is a digit string without leading zeros that
   * denotes a mosaic code, and is its own digit filter, so the background
   * extraction of a span style can produce it.
   */
  lemma HeaderTblCodes()
    ensures forall k :: k in HeaderTbl ==> Canonical(k) && MosaicCode(DecValue(k)) && DigitsOf(k) == k
  {
    HeaderPart1Codes();
    HeaderPart2Codes();
    HeaderPart3Codes();
    HeaderPart4Codes();
    HeaderPart5Codes();
    HeaderPart6Codes();
    HeaderPart7Codes();
    HeaderPart8Codes();
    UnionCodes(HeaderPart1, HeaderPart2);
    UnionCodes(HeaderPart1 + HeaderPart2, HeaderPart3);
    UnionCodes(HeaderPart1 + HeaderPart2 + HeaderPart3, HeaderPart4);
    UnionCodes(HeaderPart1 + HeaderPart2 + HeaderPart3 + HeaderPart4, HeaderPart5);
    UnionCodes(HeaderPart1 + HeaderPart2 + HeaderPart3 + HeaderPart4 + HeaderPart5, HeaderPart6);
    UnionCodes(HeaderPart1 + HeaderPart2 + HeaderPart3 + HeaderPart4 + HeaderPart5 + HeaderPart6, HeaderPart7);
    UnionCodes(HeaderPart1 + HeaderPart2 + HeaderPart3 + HeaderPart4 + HeaderPart5 + HeaderPart6 + HeaderPart7, HeaderPart8);
    forall k | k in HeaderTbl ensures DigitsOf(k) == k {
      DigitsOfDigits(k);
    }
  }

  /** Every glyph of `header_tbl` lies in the Unicode Block Elements block U+2580..U+259F. */
  lemma HeaderTblGlyphs()
    ensures GlyphsInBlock(HeaderTbl)
  {
    HeaderPart1Glyphs();
    HeaderPart2Glyphs();
    HeaderPart3Glyphs();
    HeaderPart4Glyphs();
    HeaderPart5Glyphs();
    HeaderPart6Glyphs();
    HeaderPart7Glyphs();
    HeaderPart8Glyphs();
    UnionGlyphs(HeaderPart1, HeaderPart2);
    UnionGlyphs(HeaderPart1 + HeaderPart2, HeaderPart3);
    UnionGlyphs(HeaderPart1 + HeaderPart2 + HeaderPart3, HeaderPart4);
    UnionGlyphs(HeaderPart1 + HeaderPart2 + HeaderPart3 + HeaderPart4, HeaderPart5);
    UnionGlyphs(HeaderPart1 + HeaderPart2 + HeaderPart3 + HeaderPart4 + HeaderPart5, HeaderPart6);
    UnionGlyphs(HeaderPart1 + HeaderPart2 + HeaderPart3 + HeaderPart4 + HeaderPart5 + HeaderPart6, HeaderPart7);
    UnionGlyphs(HeaderPart1 + HeaderPart2 + HeaderPart3 + HeaderPart4 + HeaderPart5 + HeaderPart6 + HeaderPart7, HeaderPart8);
  }

  /** The full block U+2588 is the glyph of codes 124, 127, 47, 115, 119, 63, 123 and 111. */
  lemma HeaderTblFullBlock(k: string)
    requires k in ["124", "127", "47", "115", "119", "63", "123", "111"]
    ensures k in HeaderTbl && HeaderTbl[k] == '\U{2588}'
  {
    if k in ["124", "127", "47"] {
      FullBlockInHeaderPart1(k);
      HeaderPart1Agrees();
    } else if k in ["115", "119"] {
      FullBlockInHeaderPart2(k);
      HeaderPart2Agrees();
    } else {
      FullBlockInHeaderPart5(k);
      HeaderPart5Agrees();
    }
  }

  lemma HeaderPart1Codes() ensures KeysAreCodes(HeaderPart1) {
    forall k | k in HeaderPart1 ensures Canonical(k) && MosaicCode(DecValue(k)) {
      ShortDecValue(k);
    }
  }

  lemma HeaderPart1Glyphs() ensures GlyphsInBlock(HeaderPart1) {}

  /** The entries of `HeaderPart1` are entries of `header_tbl`: no other part shares a key. */
  lemma HeaderPart1Agrees()
    ensures forall k :: k in HeaderPart1 ==> k in HeaderTbl && HeaderTbl[k] == HeaderPart1[k]
  {
    Disjoint12();
    Disjoint13();
    Disjoint14();
    Disjoint15();
    Disjoint16();
    Disjoint17();
    Disjoint18();
  }

  lemma HeaderPart1Size() ensures |HeaderPart1| == 7 {}

  lemma HeaderPart2Codes() ensures KeysAreCodes(HeaderPart2) {
    forall k | k in HeaderPart2 ensures Canonical(k) && MosaicCode(DecValue(k)) {
      ShortDecValue(k);
    }
  }

  lemma HeaderPart2Glyphs() ensures GlyphsInBlock(HeaderPart2) {}

  /** The entries of `HeaderPart2` are entries of `header_tbl`: no other part shares a key. */
  lemma HeaderPart2Agrees()
    ensures forall k :: k in HeaderPart2 ==> k in HeaderTbl && HeaderTbl[k] == HeaderPart2[k]
  {
    Disjoint12();
    Disjoint23();
    Disjoint24();
    Disjoint25();
    Disjoint26();
    Disjoint27();
    Disjoint28();
  }

  lemma HeaderPart2Size() ensures |HeaderPart2| == 7 {}

  lemma HeaderPart3Codes() ensures KeysAreCodes(HeaderPart3) {
    forall k | k in HeaderPart3 ensures Canonical(k) && MosaicCode(DecValue(k)) {
      ShortDecValue(k);
    }
  }

  lemma HeaderPart3Glyphs() ensures GlyphsInBlock(HeaderPart3) {}

  /** The entries of `HeaderPart3` are entries of `header_tbl`: no other part shares a key. */
  lemma HeaderPart3Agrees()
    ensures forall k :: k in HeaderPart3 ==> k in HeaderTbl && HeaderTbl[k] == HeaderPart3[k]
  {
    Disjoint13();
    Disjoint23();
    Disjoint34();
    Disjoint35();
    Disjoint36();
    Disjoint37();
    Disjoint38();
  }

  lemma HeaderPart3Size() ensures |HeaderPart3| == 7 {}

  lemma HeaderPart4Codes() ensures KeysAreCodes(HeaderPart4) {
    forall k | k in HeaderPart4 ensures Canonical(k) && MosaicCode(DecValue(k)) {
      ShortDecValue(k);
    }
  }

  lemma HeaderPart4Glyphs() ensures GlyphsInBlock(HeaderPart4) {}

  /** The entries of `HeaderPart4` are entries of `header_tbl`: no other part shares a key. */
  lemma HeaderPart4Agrees()
    ensures forall k :: k in HeaderPart4 ==> k in HeaderTbl && HeaderTbl[k] == HeaderPart4[k]
  {
    Disjoint14();
    Disjoint24();
    Disjoint34();
    Disjoint45();
    Disjoint46();
    Disjoint47();
    Disjoint48();
  }

  lemma HeaderPart4Size() ensures |HeaderPart4| == 6 {}

  lemma HeaderPart5Codes() ensures KeysAreCodes(HeaderPart5) {
    forall k | k in HeaderPart5 ensures Canonical(k) && MosaicCode(DecValue(k)) {
      ShortDecValue(k);
    }
  }

  lemma HeaderPart5Glyphs() ensures GlyphsInBlock(HeaderPart5) {}

  /** The entries of `HeaderPart5` are entries of `header_tbl`: no other part shares a key. */
  lemma HeaderPart5Agrees()
    ensures forall k :: k in HeaderPart5 ==> k in HeaderTbl && HeaderTbl[k] == HeaderPart5[k]
  {
    Disjoint15();
    Disjoint25();
    Disjoint35();
    Disjoint45();
    Disjoint56();
    Disjoint57();
    Disjoint58();
  }

  lemma HeaderPart5Size() ensures |HeaderPart5| == 6 {}

  lemma HeaderPart6Codes() ensures KeysAreCodes(HeaderPart6) {
    forall k | k in HeaderPart6 ensures Canonical(k) && MosaicCode(DecValue(k)) {
      ShortDecValue(k);
    }
  }

  lemma HeaderPart6Glyphs() ensures GlyphsInBlock(HeaderPart6) {}

  /** The entries of `HeaderPart6` are entries of `header_tbl`: no other part shares a key. */
  lemma HeaderPart6Agrees()
    ensures forall k :: k in HeaderPart6 ==> k in HeaderTbl && HeaderTbl[k] == HeaderPart6[k]
  {
    Disjoint16();
    Disjoint26();
    Disjoint36();
    Disjoint46();
    Disjoint56();
    Disjoint67();
    Disjoint68();
  }

  lemma HeaderPart6Size() ensures |HeaderPart6| == 6 {}

  lemma HeaderPart7Codes() ensures KeysAreCodes(HeaderPart7) {
    forall k | k in HeaderPart7 ensures Canonical(k) && MosaicCode(DecValue(k)) {
      ShortDecValue(k);
    }
  }

  lemma HeaderPart7Glyphs() ensures GlyphsInBlock(HeaderPart7) {}

  /** The entries of `HeaderPart7` are entries of `header_tbl`: no other part shares a key. */
  lemma HeaderPart7Agrees()
    ensures forall k :: k in HeaderPart7 ==> k in HeaderTbl && HeaderTbl[k] == HeaderPart7[k]
  {
    Disjoint17();
    Disjoint27();
    Disjoint37();
    Disjoint47();
    Disjoint57();
    Disjoint67();
    Disjoint78();
  }

  lemma HeaderPart7Size() ensures |HeaderPart7| == 6 {}

  lemma HeaderPart8Codes() ensures KeysAreCodes(HeaderPart8) {
    forall k | k in HeaderPart8 ensures Canonical(k) && MosaicCode(DecValue(k)) {
      ShortDecValue(k);
    }
  }

  lemma HeaderPart8Glyphs() ensures GlyphsInBlock(HeaderPart8) {}

  /** The entries of `HeaderPart8` are entries of `header_tbl`: no other part shares a key. */
  lemma HeaderPart8Agrees()
    ensures forall k :: k in HeaderPart8 ==> k in HeaderTbl && HeaderTbl[k] == HeaderPart8[k]
  {
    Disjoint18();
    Disjoint28();
    Disjoint38();
    Disjoint48();
    Disjoint58();
    Disjoint68();
    Disjoint78();
  }

  lemma HeaderPart8Size() ensures |HeaderPart8| == 6 {}

  lemma Disjoint12() ensures HeaderPart1.Keys !! HeaderPart2.Keys {}
  lemma Disjoint13() ensures HeaderPart1.Keys !! HeaderPart3.Keys {}
  lemma Disjoint14() ensures HeaderPart1.Keys !! HeaderPart4.Keys {}
  lemma Disjoint15() ensures HeaderPart1.Keys !! HeaderPart5.Keys {}
  lemma Disjoint16() ensures HeaderPart1.Keys !! HeaderPart6.Keys {}
  lemma Disjoint17() ensures HeaderPart1.Keys !! HeaderPart7.Keys {}
  lemma Disjoint18() ensures HeaderPart1.Keys !! HeaderPart8.Keys {}
  lemma Disjoint23() ensures HeaderPart2.Keys !! HeaderPart3.Keys {}
  lemma Disjoint24() ensures HeaderPart2.Keys !! HeaderPart4.Keys {}
  lemma Disjoint25() ensures HeaderPart2.Keys !! HeaderPart5.Keys {}
  lemma Disjoint26() ensures HeaderPart2.Keys !! HeaderPart6.Keys {}
  lemma Disjoint27() ensures HeaderPart2.Keys !! HeaderPart7.Keys {}
  lemma Disjoint28() ensures HeaderPart2.Keys !! HeaderPart8.Keys {}
  lemma Disjoint34() ensures HeaderPart3.Keys !! HeaderPart4.Keys {}
  lemma Disjoint35() ensures HeaderPart3.Keys !! HeaderPart5.Keys {}
  lemma Disjoint36() ensures HeaderPart3.Keys !! HeaderPart6.Keys {}
  lemma Disjoint37() ensures HeaderPart3.Keys !! HeaderPart7.Keys {}
  lemma Disjoint38() ensures HeaderPart3.Keys !! HeaderPart8.Keys {}
  lemma Disjoint45() ensures HeaderPart4.Keys !! HeaderPart5.Keys {}
  lemma Disjoint46() ensures HeaderPart4.Keys !! HeaderPart6.Keys {}
  lemma Disjoint47() ensures HeaderPart4.Keys !! HeaderPart7.Keys {}
  lemma Disjoint48() ensures HeaderPart4.Keys !! HeaderPart8.Keys {}
  lemma Disjoint56() ensures HeaderPart5.Keys !! HeaderPart6.Keys {}
  lemma Disjoint57() ensures HeaderPart5.Keys !! HeaderPart7.Keys {}
  lemma Disjoint58() ensures HeaderPart5.Keys !! HeaderPart8.Keys {}
  lemma Disjoint67() ensures HeaderPart6.Keys !! HeaderPart7.Keys {}
  lemma Disjoint68() ensures HeaderPart6.Keys !! HeaderPart8.Keys {}
  lemma Disjoint78() ensures HeaderPart7.Keys !! HeaderPart8.Keys {}

  lemma FullBlockInHeaderPart1(k: string)
    requires k in ["124", "127", "47"]
    ensures k in HeaderPart1 && HeaderPart1[k] == '\U{2588}'
  {
  }

  lemma FullBlockInHeaderPart2(k: string)
    requires k in ["115", "119"]
    ensures k in HeaderPart2 && HeaderPart2[k] == '\U{2588}'
  {
  }

  lemma FullBlockInHeaderPart5(k: string)
    requires k in ["63", "123", "111"]
    ensures k in HeaderPart5 && HeaderPart5[k] == '\U{2588}'
  {
  }

  /** The value of a two- or three-digit string, digit by digit. */
  lemma ShortDecValue(k: string)
    requires 2 <= |k| <= 3 && AllDigits(k)
    ensures |k| == 2 ==> DecValue(k) == DigitValue(k[0]) * 10 + DigitValue(k[1])
    ensures |k| == 3 ==> DecValue(k) == DigitValue(k[0]) * 100 + DigitValue(k[1]) * 10 + DigitValue(k[2])
  {
    var p := k[..|k| - 1];
    assert DecValue(k) == DecValue(p) * 10 + DigitValue(k[|k| - 1]);
    var q := p[..|p| - 1];
    assert DecValue(p) == DecValue(q) * 10 + DigitValue(p[|p| - 1]);
    if |k| == 3 {
      assert DecValue(q) == DecValue(q[..0]) * 10 + DigitValue(k[0]);
    } else {
      assert DecValue(p) == DecValue(p[..0]) * 10 + DigitValue(k[0]);
    }
  }

  predicate KeysAreCodes(m: map<string, char>) {
    forall k :: k in m ==> Canonical(k) && MosaicCode(DecValue(k))
  }

  predicate GlyphsInBlock(m: map<string, char>) {
    forall k :: k in m ==> '\U{2580}' <= m[k] <= '\U{259F}'
  }

  lemma UnionCodes(m: map<string, char>, n: map<string, char>)
    requires KeysAreCodes(m) && KeysAreCodes(n)
    ensures KeysAreCodes(m + n)
  {
  }

  lemma UnionGlyphs(m: map<string, char>, n: map<string, char>)
    requires GlyphsInBlock(m) && GlyphsInBlock(n)
    ensures GlyphsInBlock(m + n)
  {
  }

  /** Keys of disjoint maps add up in the union. */
  lemma DisjointUnionSize<K, V>(m: map<K, V>, n: map<K, V>)
    requires m.Keys !! n.Keys
    ensures |m + n| == |m| + |n|
  {
    assert (m + n).Keys == m.Keys + n.Keys;
  }
}
