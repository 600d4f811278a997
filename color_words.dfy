/**
 * The colour words of the evaluator in jsf.hh (the vocabulary listed at
 * jsf.hh:252-256): the rolling hash with `unsigned short` wrap-around and the
 * ANSI-order action table send every word of the vocabulary to its own code.
 * Codes 0-15 set the foreground, 16-31 the background, 32-37 the flags
 * underline, dim, italic, bold, inverse and blink. Each hash is computed one
 * byte at a time, from the end of the word back.
 */
module ColorWords {
  import opened Base
  import opened Color

  /** `black` sets the foreground to 0. */
  lemma Black(w: Str)
    requires w == [98, 108, 97, 99, 107]
    ensures WordCode(w) == 0
  {
    assert HashFrom(w, 5, 46090, 140) == 46090;
    assert HashFrom(w, 4, 36348, 112) == 46090;
    assert HashFrom(w, 3, 27354, 84) == 46090;
    assert HashFrom(w, 2, 18568, 56) == 46090;
    assert HashFrom(w, 1, 8820, 28) == 46090;
    assert HashFrom(w, 0, 0, 0) == 46090;
    assert ((46090 + 22) / 26) % 46 == 25;
    assert Actions[25] == 0;
  }

  /** `red` sets the foreground to 1. */
  lemma Red(w: Str)
    requires w == [114, 101, 100]
    ensures WordCode(w) == 1
  {
    assert HashFrom(w, 3, 28434, 84) == 28434;
    assert HashFrom(w, 2, 19378, 56) == 28434;
    assert HashFrom(w, 1, 10260, 28) == 28434;
    assert HashFrom(w, 0, 0, 0) == 28434;
    assert ((28434 + 22) / 26) % 46 == 36;
    assert Actions[36] == 1;
  }

  /** `green` sets the foreground to 2. */
  lemma Green(w: Str)
    requires w == [103, 114, 101, 101, 110]
    ensures WordCode(w) == 2
  {
    assert HashFrom(w, 5, 47890, 140) == 47890;
    assert HashFrom(w, 4, 37878, 112) == 47890;
    assert HashFrom(w, 3, 28704, 84) == 47890;
    assert HashFrom(w, 2, 19558, 56) == 47890;
    assert HashFrom(w, 1, 9270, 28) == 47890;
    assert HashFrom(w, 0, 0, 0) == 47890;
    assert ((47890 + 22) / 26) % 46 == 2;
    assert Actions[2] == 2;
  }

  /** `yellow` sets the foreground to 3. */
  lemma Yellow(w: Str)
    requires w == [121, 101, 108, 108, 111, 119]
    ensures WordCode(w) == 3
  {
    assert HashFrom(w, 6, 60540, 168) == 60540;
    assert HashFrom(w, 5, 49690, 140) == 60540;
    assert HashFrom(w, 4, 39588, 112) == 60540;
    assert HashFrom(w, 3, 29784, 84) == 60540;
    assert HashFrom(w, 2, 20008, 56) == 60540;
    assert HashFrom(w, 1, 10890, 28) == 60540;
    assert HashFrom(w, 0, 0, 0) == 60540;
    assert ((60540 + 22) / 26) % 46 == 29;
    assert Actions[29] == 3;
  }

  /** `blue` sets the foreground to 4. */
  lemma Blue(w: Str)
    requires w == [98, 108, 117, 101]
    ensures WordCode(w) == 4
  {
    assert HashFrom(w, 4, 38328, 112) == 38328;
    assert HashFrom(w, 3, 29154, 84) == 38328;
    assert HashFrom(w, 2, 18568, 56) == 38328;
    assert HashFrom(w, 1, 8820, 28) == 38328;
    assert HashFrom(w, 0, 0, 0) == 38328;
    assert ((38328 + 22) / 26) % 46 == 3;
    assert Actions[3] == 4;
  }

  /** `magenta` sets the foreground to 5. */
  lemma Magenta(w: Str)
    requires w == [109, 97, 103, 101, 110, 116, 97]
    ensures WordCode(w) == 5
  {
    assert HashFrom(w, 7, 1022, 196) == 1022;
    assert HashFrom(w, 6, 57660, 168) == 1022;
    assert HashFrom(w, 5, 47080, 140) == 1022;
    assert HashFrom(w, 4, 37068, 112) == 1022;
    assert HashFrom(w, 3, 27894, 84) == 1022;
    assert HashFrom(w, 2, 18568, 56) == 1022;
    assert HashFrom(w, 1, 9810, 28) == 1022;
    assert HashFrom(w, 0, 0, 0) == 1022;
    assert ((1022 + 22) / 26) % 46 == 40;
    assert Actions[40] == 5;
  }

  /** `cyan` sets the foreground to 6. */
  lemma Cyan(w: Str)
    requires w == [99, 121, 97, 110]
    ensures WordCode(w) == 6
  {
    assert HashFrom(w, 4, 38598, 112) == 38598;
    assert HashFrom(w, 3, 28614, 84) == 38598;
    assert HashFrom(w, 2, 19828, 56) == 38598;
    assert HashFrom(w, 1, 8910, 28) == 38598;
    assert HashFrom(w, 0, 0, 0) == 38598;
    assert ((38598 + 22) / 26) % 46 == 13;
    assert Actions[13] == 6;
  }

  /** `white` sets the foreground to 7. */
  lemma White(w: Str)
    requires w == [119, 104, 105, 116, 101]
    ensures WordCode(w) == 7
  {
    assert HashFrom(w, 5, 49330, 140) == 49330;
    assert HashFrom(w, 4, 40128, 112) == 49330;
    assert HashFrom(w, 3, 29604, 84) == 49330;
    assert HashFrom(w, 2, 20098, 56) == 49330;
    assert HashFrom(w, 1, 10710, 28) == 49330;
    assert HashFrom(w, 0, 0, 0) == 49330;
    assert ((49330 + 22) / 26) % 46 == 12;
    assert Actions[12] == 7;
  }

  /** `BLACK` sets the foreground to 8. */
  lemma BrightBlack(w: Str)
    requires w == [66, 76, 65, 67, 75]
    ensures WordCode(w) == 8
  {
    assert HashFrom(w, 5, 31690, 140) == 31690;
    assert HashFrom(w, 4, 24828, 112) == 31690;
    assert HashFrom(w, 3, 18714, 84) == 31690;
    assert HashFrom(w, 2, 12808, 56) == 31690;
    assert HashFrom(w, 1, 5940, 28) == 31690;
    assert HashFrom(w, 0, 0, 0) == 31690;
    assert ((31690 + 22) / 26) % 46 == 23;
    assert Actions[23] == 8;
  }

  /** `RED` sets the foreground to 9. */
  lemma BrightRed(w: Str)
    requires w == [82, 69, 68]
    ensures WordCode(w) == 9
  {
    assert HashFrom(w, 3, 19794, 84) == 19794;
    assert HashFrom(w, 2, 13618, 56) == 19794;
    assert HashFrom(w, 1, 7380, 28) == 19794;
    assert HashFrom(w, 0, 0, 0) == 19794;
    assert ((19794 + 22) / 26) % 46 == 26;
    assert Actions[26] == 9;
  }

  /** `GREEN` sets the foreground to 10. */
  lemma BrightGreen(w: Str)
    requires w == [71, 82, 69, 69, 78]
    ensures WordCode(w) == 10
  {
    assert HashFrom(w, 5, 33490, 140) == 33490;
    assert HashFrom(w, 4, 26358, 112) == 33490;
    assert HashFrom(w, 3, 20064, 84) == 33490;
    assert HashFrom(w, 2, 13798, 56) == 33490;
    assert HashFrom(w, 1, 6390, 28) == 33490;
    assert HashFrom(w, 0, 0, 0) == 33490;
    assert ((33490 + 22) / 26) % 46 == 0;
    assert Actions[0] == 10;
  }

  /** `YELLOW` sets the foreground to 11. */
  lemma BrightYellow(w: Str)
    requires w == [89, 69, 76, 76, 79, 87]
    ensures WordCode(w) == 11
  {
    assert HashFrom(w, 6, 43260, 168) == 43260;
    assert HashFrom(w, 5, 35290, 140) == 43260;
    assert HashFrom(w, 4, 28068, 112) == 43260;
    assert HashFrom(w, 3, 21144, 84) == 43260;
    assert HashFrom(w, 2, 14248, 56) == 43260;
    assert HashFrom(w, 1, 8010, 28) == 43260;
    assert HashFrom(w, 0, 0, 0) == 43260;
    assert ((43260 + 22) / 26) % 46 == 8;
    assert Actions[8] == 11;
  }

  /** `BLUE` sets the foreground to 12. */
  lemma BrightBlue(w: Str)
    requires w == [66, 76, 85, 69]
    ensures WordCode(w) == 12
  {
    assert HashFrom(w, 4, 26808, 112) == 26808;
    assert HashFrom(w, 3, 20514, 84) == 26808;
    assert HashFrom(w, 2, 12808, 56) == 26808;
    assert HashFrom(w, 1, 5940, 28) == 26808;
    assert HashFrom(w, 0, 0, 0) == 26808;
    assert ((26808 + 22) / 26) % 46 == 19;
    assert Actions[19] == 12;
  }

  /** `MAGENTA` sets the foreground to 13. */
  lemma BrightMagenta(w: Str)
    requires w == [77, 65, 71, 69, 78, 84, 65]
    ensures WordCode(w) == 13
  {
    assert HashFrom(w, 7, 46398, 196) == 46398;
    assert HashFrom(w, 6, 40380, 168) == 46398;
    assert HashFrom(w, 5, 32680, 140) == 46398;
    assert HashFrom(w, 4, 25548, 112) == 46398;
    assert HashFrom(w, 3, 19254, 84) == 46398;
    assert HashFrom(w, 2, 12808, 56) == 46398;
    assert HashFrom(w, 1, 6930, 28) == 46398;
    assert HashFrom(w, 0, 0, 0) == 46398;
    assert ((46398 + 22) / 26) % 46 == 37;
    assert Actions[37] == 13;
  }

  /** `CYAN` sets the foreground to 14. */
  lemma BrightCyan(w: Str)
    requires w == [67, 89, 65, 78]
    ensures WordCode(w) == 14
  {
    assert HashFrom(w, 4, 27078, 112) == 27078;
    assert HashFrom(w, 3, 19974, 84) == 27078;
    assert HashFrom(w, 2, 14068, 56) == 27078;
    assert HashFrom(w, 1, 6030, 28) == 27078;
    assert HashFrom(w, 0, 0, 0) == 27078;
    assert ((27078 + 22) / 26) % 46 == 30;
    assert Actions[30] == 14;
  }

  /** `WHITE` sets the foreground to 15. */
  lemma BrightWhite(w: Str)
    requires w == [87, 72, 73, 84, 69]
    ensures WordCode(w) == 15
  {
    assert HashFrom(w, 5, 34930, 140) == 34930;
    assert HashFrom(w, 4, 28608, 112) == 34930;
    assert HashFrom(w, 3, 20964, 84) == 34930;
    assert HashFrom(w, 2, 14338, 56) == 34930;
    assert HashFrom(w, 1, 7830, 28) == 34930;
    assert HashFrom(w, 0, 0, 0) == 34930;
    assert ((34930 + 22) / 26) % 46 == 10;
    assert Actions[10] == 15;
  }

  /** `bg_black` sets the background to 0. */
  lemma BgBlack(w: Str)
    requires w == [98, 103, 95, 98, 108, 97, 99, 107]
    ensures WordCode(w) == 16
  {
    assert HashFrom(w, 8, 7698, 224) == 7698;
    assert HashFrom(w, 7, 63408, 196) == 7698;
    assert HashFrom(w, 6, 54330, 168) == 7698;
    assert HashFrom(w, 5, 45460, 140) == 7698;
    assert HashFrom(w, 4, 35628, 112) == 7698;
    assert HashFrom(w, 3, 26724, 84) == 7698;
    assert HashFrom(w, 2, 18118, 56) == 7698;
    assert HashFrom(w, 1, 8820, 28) == 7698;
    assert HashFrom(w, 0, 0, 0) == 7698;
    assert ((7698 + 22) / 26) % 46 == 20;
    assert Actions[20] == 16;
  }

  /** `bg_red` sets the background to 1. */
  lemma BgRed(w: Str)
    requires w == [98, 103, 95, 114, 101, 100]
    ensures WordCode(w) == 17
  {
    assert HashFrom(w, 6, 55410, 168) == 55410;
    assert HashFrom(w, 5, 46270, 140) == 55410;
    assert HashFrom(w, 4, 37068, 112) == 55410;
    assert HashFrom(w, 3, 26724, 84) == 55410;
    assert HashFrom(w, 2, 18118, 56) == 55410;
    assert HashFrom(w, 1, 8820, 28) == 55410;
    assert HashFrom(w, 0, 0, 0) == 55410;
    assert ((55410 + 22) / 26) % 46 == 16;
    assert Actions[16] == 17;
  }

  /** `bg_green` sets the background to 2. */
  lemma BgGreen(w: Str)
    requires w == [98, 103, 95, 103, 114, 101, 101, 110]
    ensures WordCode(w) == 18
  {
    assert HashFrom(w, 8, 9498, 224) == 9498;
    assert HashFrom(w, 7, 64938, 196) == 9498;
    assert HashFrom(w, 6, 55680, 168) == 9498;
    assert HashFrom(w, 5, 46450, 140) == 9498;
    assert HashFrom(w, 4, 36078, 112) == 9498;
    assert HashFrom(w, 3, 26724, 84) == 9498;
    assert HashFrom(w, 2, 18118, 56) == 9498;
    assert HashFrom(w, 1, 8820, 28) == 9498;
    assert HashFrom(w, 0, 0, 0) == 9498;
    assert ((9498 + 22) / 26) % 46 == 44;
    assert Actions[44] == 18;
  }

  /** `bg_yellow` sets the background to 3. */
  lemma BgYellow(w: Str)
    requires w == [98, 103, 95, 121, 101, 108, 108, 111, 119]
    ensures WordCode(w) == 19
  {
    assert HashFrom(w, 9, 22232, 252) == 22232;
    assert HashFrom(w, 8, 11298, 224) == 22232;
    assert HashFrom(w, 7, 1112, 196) == 22232;
    assert HashFrom(w, 6, 56760, 168) == 22232;
    assert HashFrom(w, 5, 46900, 140) == 22232;
    assert HashFrom(w, 4, 37698, 112) == 22232;
    assert HashFrom(w, 3, 26724, 84) == 22232;
    assert HashFrom(w, 2, 18118, 56) == 22232;
    assert HashFrom(w, 1, 8820, 28) == 22232;
    assert HashFrom(w, 0, 0, 0) == 22232;
    assert ((22232 + 22) / 26) % 46 == 27;
    assert Actions[27] == 19;
  }

  /** `bg_blue` sets the background to 4. */
  lemma BgBlue(w: Str)
    requires w == [98, 103, 95, 98, 108, 117, 101]
    ensures WordCode(w) == 20
  {
    assert HashFrom(w, 7, 65388, 196) == 65388;
    assert HashFrom(w, 6, 56130, 168) == 65388;
    assert HashFrom(w, 5, 45460, 140) == 65388;
    assert HashFrom(w, 4, 35628, 112) == 65388;
    assert HashFrom(w, 3, 26724, 84) == 65388;
    assert HashFrom(w, 2, 18118, 56) == 65388;
    assert HashFrom(w, 1, 8820, 28) == 65388;
    assert HashFrom(w, 0, 0, 0) == 65388;
    assert ((65388 + 22) / 26) % 46 == 31;
    assert Actions[31] == 20;
  }

  /** `bg_magenta` sets the background to 5. */
  lemma BgMagenta(w: Str)
    requires w == [98, 103, 95, 109, 97, 103, 101, 110, 116, 97]
    ensures WordCode(w) == 21
  {
    assert HashFrom(w, 10, 28334, 280) == 28334;
    assert HashFrom(w, 9, 19352, 252) == 28334;
    assert HashFrom(w, 8, 8688, 224) == 28334;
    assert HashFrom(w, 7, 64128, 196) == 28334;
    assert HashFrom(w, 6, 54870, 168) == 28334;
    assert HashFrom(w, 5, 45460, 140) == 28334;
    assert HashFrom(w, 4, 36618, 112) == 28334;
    assert HashFrom(w, 3, 26724, 84) == 28334;
    assert HashFrom(w, 2, 18118, 56) == 28334;
    assert HashFrom(w, 1, 8820, 28) == 28334;
    assert HashFrom(w, 0, 0, 0) == 28334;
    assert ((28334 + 22) / 26) % 46 == 32;
    assert Actions[32] == 21;
  }

  /** `bg_cyan` sets the background to 6. */
  lemma BgCyan(w: Str)
    requires w == [98, 103, 95, 99, 121, 97, 110]
    ensures WordCode(w) == 22
  {
    assert HashFrom(w, 7, 122, 196) == 122;
    assert HashFrom(w, 6, 55590, 168) == 122;
    assert HashFrom(w, 5, 46720, 140) == 122;
    assert HashFrom(w, 4, 35718, 112) == 122;
    assert HashFrom(w, 3, 26724, 84) == 122;
    assert HashFrom(w, 2, 18118, 56) == 122;
    assert HashFrom(w, 1, 8820, 28) == 122;
    assert HashFrom(w, 0, 0, 0) == 122;
    assert ((122 + 22) / 26) % 46 == 5;
    assert Actions[5] == 22;
  }

  /** `bg_white` sets the background to 7. */
  lemma BgWhite(w: Str)
    requires w == [98, 103, 95, 119, 104, 105, 116, 101]
    ensures WordCode(w) == 23
  {
    assert HashFrom(w, 8, 10938, 224) == 10938;
    assert HashFrom(w, 7, 1652, 196) == 10938;
    assert HashFrom(w, 6, 56580, 168) == 10938;
    assert HashFrom(w, 5, 46990, 140) == 10938;
    assert HashFrom(w, 4, 37518, 112) == 10938;
    assert HashFrom(w, 3, 26724, 84) == 10938;
    assert HashFrom(w, 2, 18118, 56) == 10938;
    assert HashFrom(w, 1, 8820, 28) == 10938;
    assert HashFrom(w, 0, 0, 0) == 10938;
    assert ((10938 + 22) / 26) % 46 == 7;
    assert Actions[7] == 23;
  }

  /** `BG_BLACK` sets the background to 8. */
  lemma BrightBgBlack(w: Str)
    requires w == [66, 71, 95, 66, 76, 65, 67, 75]
    ensures WordCode(w) == 24
  {
    assert HashFrom(w, 8, 53074, 224) == 53074;
    assert HashFrom(w, 7, 46128, 196) == 53074;
    assert HashFrom(w, 6, 39930, 168) == 53074;
    assert HashFrom(w, 5, 33940, 140) == 53074;
    assert HashFrom(w, 4, 26988, 112) == 53074;
    assert HashFrom(w, 3, 20964, 84) == 53074;
    assert HashFrom(w, 2, 12358, 56) == 53074;
    assert HashFrom(w, 1, 5940, 28) == 53074;
    assert HashFrom(w, 0, 0, 0) == 53074;
    assert ((53074 + 22) / 26) % 46 == 18;
    assert Actions[18] == 24;
  }

  /** `BG_RED` sets the background to 9. */
  lemma BrightBgRed(w: Str)
    requires w == [66, 71, 95, 82, 69, 68]
    ensures WordCode(w) == 25
  {
    assert HashFrom(w, 6, 41010, 168) == 41010;
    assert HashFrom(w, 5, 34750, 140) == 41010;
    assert HashFrom(w, 4, 28428, 112) == 41010;
    assert HashFrom(w, 3, 20964, 84) == 41010;
    assert HashFrom(w, 2, 12358, 56) == 41010;
    assert HashFrom(w, 1, 5940, 28) == 41010;
    assert HashFrom(w, 0, 0, 0) == 41010;
    assert ((41010 + 22) / 26) % 46 == 14;
    assert Actions[14] == 25;
  }

  /** `BG_GREEN` sets the background to 10. */
  lemma BrightBgGreen(w: Str)
    requires w == [66, 71, 95, 71, 82, 69, 69, 78]
    ensures WordCode(w) == 26
  {
    assert HashFrom(w, 8, 54874, 224) == 54874;
    assert HashFrom(w, 7, 47658, 196) == 54874;
    assert HashFrom(w, 6, 41280, 168) == 54874;
    assert HashFrom(w, 5, 34930, 140) == 54874;
    assert HashFrom(w, 4, 27438, 112) == 54874;
    assert HashFrom(w, 3, 20964, 84) == 54874;
    assert HashFrom(w, 2, 12358, 56) == 54874;
    assert HashFrom(w, 1, 5940, 28) == 54874;
    assert HashFrom(w, 0, 0, 0) == 54874;
    assert ((54874 + 22) / 26) % 46 == 41;
    assert Actions[41] == 26;
  }

  /** `BG_YELLOW` sets the background to 11. */
  lemma BrightBgYellow(w: Str)
    requires w == [66, 71, 95, 89, 69, 76, 76, 79, 87]
    ensures WordCode(w) == 27
  {
    assert HashFrom(w, 9, 64728, 252) == 64728;
    assert HashFrom(w, 8, 56674, 224) == 64728;
    assert HashFrom(w, 7, 49368, 196) == 64728;
    assert HashFrom(w, 6, 42360, 168) == 64728;
    assert HashFrom(w, 5, 35380, 140) == 64728;
    assert HashFrom(w, 4, 29058, 112) == 64728;
    assert HashFrom(w, 3, 20964, 84) == 64728;
    assert HashFrom(w, 2, 12358, 56) == 64728;
    assert HashFrom(w, 1, 5940, 28) == 64728;
    assert HashFrom(w, 0, 0, 0) == 64728;
    assert ((64728 + 22) / 26) % 46 == 6;
    assert Actions[6] == 27;
  }

  /** `BG_BLUE` sets the background to 12. */
  lemma BrightBgBlue(w: Str)
    requires w == [66, 71, 95, 66, 76, 85, 69]
    ensures WordCode(w) == 28
  {
    assert HashFrom(w, 7, 48108, 196) == 48108;
    assert HashFrom(w, 6, 41730, 168) == 48108;
    assert HashFrom(w, 5, 33940, 140) == 48108;
    assert HashFrom(w, 4, 26988, 112) == 48108;
    assert HashFrom(w, 3, 20964, 84) == 48108;
    assert HashFrom(w, 2, 12358, 56) == 48108;
    assert HashFrom(w, 1, 5940, 28) == 48108;
    assert HashFrom(w, 0, 0, 0) == 48108;
    assert ((48108 + 22) / 26) % 46 == 11;
    assert Actions[11] == 28;
  }

  /** `BG_MAGENTA` sets the background to 13. */
  lemma BrightBgMagenta(w: Str)
    requires w == [66, 71, 95, 77, 65, 71, 69, 78, 84, 65]
    ensures WordCode(w) == 29
  {
    assert HashFrom(w, 10, 2414, 280) == 2414;
    assert HashFrom(w, 9, 61848, 252) == 2414;
    assert HashFrom(w, 8, 54064, 224) == 2414;
    assert HashFrom(w, 7, 46848, 196) == 2414;
    assert HashFrom(w, 6, 40470, 168) == 2414;
    assert HashFrom(w, 5, 33940, 140) == 2414;
    assert HashFrom(w, 4, 27978, 112) == 2414;
    assert HashFrom(w, 3, 20964, 84) == 2414;
    assert HashFrom(w, 2, 12358, 56) == 2414;
    assert HashFrom(w, 1, 5940, 28) == 2414;
    assert HashFrom(w, 0, 0, 0) == 2414;
    assert ((2414 + 22) / 26) % 46 == 1;
    assert Actions[1] == 29;
  }

  /** `BG_CYAN` sets the background to 14. */
  lemma BrightBgCyan(w: Str)
    requires w == [66, 71, 95, 67, 89, 65, 78]
    ensures WordCode(w) == 30
  {
    assert HashFrom(w, 7, 48378, 196) == 48378;
    assert HashFrom(w, 6, 41190, 168) == 48378;
    assert HashFrom(w, 5, 35200, 140) == 48378;
    assert HashFrom(w, 4, 27078, 112) == 48378;
    assert HashFrom(w, 3, 20964, 84) == 48378;
    assert HashFrom(w, 2, 12358, 56) == 48378;
    assert HashFrom(w, 1, 5940, 28) == 48378;
    assert HashFrom(w, 0, 0, 0) == 48378;
    assert ((48378 + 22) / 26) % 46 == 21;
    assert Actions[21] == 30;
  }

  /** `BG_WHITE` sets the background to 15. */
  lemma BrightBgWhite(w: Str)
    requires w == [66, 71, 95, 87, 72, 73, 84, 69]
    ensures WordCode(w) == 31
  {
    assert HashFrom(w, 8, 56314, 224) == 56314;
    assert HashFrom(w, 7, 49908, 196) == 56314;
    assert HashFrom(w, 6, 42180, 168) == 56314;
    assert HashFrom(w, 5, 35470, 140) == 56314;
    assert HashFrom(w, 4, 28878, 112) == 56314;
    assert HashFrom(w, 3, 20964, 84) == 56314;
    assert HashFrom(w, 2, 12358, 56) == 56314;
    assert HashFrom(w, 1, 5940, 28) == 56314;
    assert HashFrom(w, 0, 0, 0) == 56314;
    assert ((56314 + 22) / 26) % 46 == 4;
    assert Actions[4] == 31;
  }

  /** `underline` sets flag bit 0. */
  lemma Underline(w: Str)
    requires w == [117, 110, 100, 101, 114, 108, 105, 110, 101]
    ensures WordCode(w) == 32
  {
    assert HashFrom(w, 9, 22412, 252) == 22412;
    assert HashFrom(w, 8, 13098, 224) == 22412;
    assert HashFrom(w, 7, 3002, 196) == 22412;
    assert HashFrom(w, 6, 58920, 168) == 22412;
    assert HashFrom(w, 5, 49060, 140) == 22412;
    assert HashFrom(w, 4, 38688, 112) == 22412;
    assert HashFrom(w, 3, 29514, 84) == 22412;
    assert HashFrom(w, 2, 20458, 56) == 22412;
    assert HashFrom(w, 1, 10530, 28) == 22412;
    assert HashFrom(w, 0, 0, 0) == 22412;
    assert ((22412 + 22) / 26) % 46 == 34;
    assert Actions[34] == 32;
  }

  /** `dim` sets flag bit 1. */
  lemma Dim(w: Str)
    requires w == [100, 105, 109]
    ensures WordCode(w) == 33
  {
    assert HashFrom(w, 3, 28344, 84) == 28344;
    assert HashFrom(w, 2, 18478, 56) == 28344;
    assert HashFrom(w, 1, 9000, 28) == 28344;
    assert HashFrom(w, 0, 0, 0) == 28344;
    assert ((28344 + 22) / 26) % 46 == 33;
    assert Actions[33] == 33;
  }

  /** `italic` sets flag bit 2. */
  lemma Italic(w: Str)
    requires w == [105, 116, 97, 108, 105, 99]
    ensures WordCode(w) == 34
  {
    assert HashFrom(w, 6, 57120, 168) == 57120;
    assert HashFrom(w, 5, 48070, 140) == 57120;
    assert HashFrom(w, 4, 38508, 112) == 57120;
    assert HashFrom(w, 3, 28704, 84) == 57120;
    assert HashFrom(w, 2, 19918, 56) == 57120;
    assert HashFrom(w, 1, 9450, 28) == 57120;
    assert HashFrom(w, 0, 0, 0) == 57120;
    assert ((57120 + 22) / 26) % 46 == 35;
    assert Actions[35] == 34;
  }

  /** `bold` sets flag bit 3. */
  lemma Bold(w: Str)
    requires w == [98, 111, 108, 100]
    ensures WordCode(w) == 35
  {
    assert HashFrom(w, 4, 37698, 112) == 37698;
    assert HashFrom(w, 3, 28614, 84) == 37698;
    assert HashFrom(w, 2, 18838, 56) == 37698;
    assert HashFrom(w, 1, 8820, 28) == 37698;
    assert HashFrom(w, 0, 0, 0) == 37698;
    assert ((37698 + 22) / 26) % 46 == 24;
    assert Actions[24] == 35;
  }

  /** `inverse` sets flag bit 4. */
  lemma Inverse(w: Str)
    requires w == [105, 110, 118, 101, 114, 115, 101]
    ensures WordCode(w) == 36
  {
    assert HashFrom(w, 7, 3812, 196) == 3812;
    assert HashFrom(w, 6, 60090, 168) == 3812;
    assert HashFrom(w, 5, 49600, 140) == 3812;
    assert HashFrom(w, 4, 39228, 112) == 3812;
    assert HashFrom(w, 3, 30054, 84) == 3812;
    assert HashFrom(w, 2, 19378, 56) == 3812;
    assert HashFrom(w, 1, 9450, 28) == 3812;
    assert HashFrom(w, 0, 0, 0) == 3812;
    assert ((3812 + 22) / 26) % 46 == 9;
    assert Actions[9] == 36;
  }

  /** `blink` sets flag bit 5. */
  lemma Blink(w: Str)
    requires w == [98, 108, 105, 110, 107]
    ensures WordCode(w) == 37
  {
    assert HashFrom(w, 5, 47800, 140) == 47800;
    assert HashFrom(w, 4, 38058, 112) == 47800;
    assert HashFrom(w, 3, 28074, 84) == 47800;
    assert HashFrom(w, 2, 18568, 56) == 47800;
    assert HashFrom(w, 1, 8820, 28) == 47800;
    assert HashFrom(w, 0, 0, 0) == 47800;
    assert ((47800 + 22) / 26) % 46 == 45;
    assert Actions[45] == 37;
  }
}
