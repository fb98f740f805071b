/** codec/aacdecode/hufftabs.c: the length counts and symbol tables of the eleven spectral
    codebooks and of the scalefactor codebook, each with its inverse: the symbol that
    carries a given coefficient vector. */
module HuffTables {
  import opened Fixed
  import opened Huffman

  // ---- codebook 1 ----

  function Tab1(s: nat): int
  {
    match s / 16
    case 0 => Pick(s % 16, 0x0000, 0x0200, 0x0e00, 0x0007, 0x0040, 0x0001, 0x0038, 0x0008, 0x01c0, 0x03c0, 0x0e40, 0x0039, 0x0078, 0x01c8, 0x000f, 0x0240)
    case 1 => Pick(s % 16, 0x003f, 0x0fc0, 0x01f8, 0x0238, 0x0047, 0x0e08, 0x0009, 0x0208, 0x01c1, 0x0048, 0x0041, 0x0e38, 0x0201, 0x0e07, 0x0207, 0x0e01)
    case 2 => Pick(s % 16, 0x01c7, 0x0278, 0x0e78, 0x03c8, 0x004f, 0x0079, 0x01c9, 0x01cf, 0x03f8, 0x0239, 0x007f, 0x0e48, 0x0e0f, 0x0fc8, 0x01f9, 0x03c1)
    case 3 => Pick(s % 16, 0x03c7, 0x0e47, 0x0ff8, 0x01ff, 0x0049, 0x020f, 0x0241, 0x0e41, 0x0248, 0x0fc1, 0x0e3f, 0x0247, 0x023f, 0x0e39, 0x0fc7, 0x0e09)
    case 4 => Pick(s % 16, 0x0209, 0x03cf, 0x0e79, 0x0e4f, 0x03f9, 0x0249, 0x0fc9, 0x027f, 0x0fcf, 0x0fff, 0x0279, 0x03c9, 0x0e49, 0x0e7f, 0x0ff9, 0x03ff)
    case 5 => Pick(s % 16, 0x024f)
    case _ => 0
  }

  function Sym1(r: nat, i: nat): int
  {
    match r
    case 0 => Pick(i, 73, 50, 78, 62, 17, 57, 72, 45, 70)
    case 1 => Pick(i, 58, 27, 61, 29, 2, 31, 44, 21, 63)
    case 2 => Pick(i, 77, 34, 66, 49, 10, 55, 67, 43, 76)
    case 3 => Pick(i, 51, 18, 46, 32, 8, 24, 39, 13, 38)
    case 4 => Pick(i, 16, 6, 11, 3, 0, 5, 14, 7, 22)
    case 5 => Pick(i, 42, 12, 37, 20, 4, 26, 36, 25, 52)
    case 6 => Pick(i, 79, 40, 68, 48, 9, 47, 65, 35, 75)
    case 7 => Pick(i, 60, 19, 41, 30, 1, 28, 53, 23, 64)
    case 8 => Pick(i, 71, 33, 74, 59, 15, 54, 80, 56, 69)
    case _ => 0
  }

  // ---- codebook 2 ----

  function Tab2(s: nat): int
  {
    match s / 16
    case 0 => Pick(s % 16, 0x0000, 0x0200, 0x0e00, 0x0001, 0x0038, 0x0007, 0x01c0, 0x0008, 0x0040, 0x01c8, 0x0e40, 0x0078, 0x000f, 0x0047, 0x0039, 0x0e07)
    case 1 => Pick(s % 16, 0x03c0, 0x0238, 0x0fc0, 0x003f, 0x0208, 0x0201, 0x01c1, 0x0e08, 0x0041, 0x01f8, 0x0e01, 0x01c7, 0x0e38, 0x0240, 0x0048, 0x0009)
    case 2 => Pick(s % 16, 0x0207, 0x0079, 0x0239, 0x0e78, 0x01cf, 0x03c8, 0x0247, 0x0209, 0x0e48, 0x01f9, 0x0248, 0x0e0f, 0x0ff8, 0x0e39, 0x03f8, 0x0278)
    case 3 => Pick(s % 16, 0x03c1, 0x0e47, 0x0fc8, 0x0e09, 0x0fc1, 0x0fc7, 0x01ff, 0x020f, 0x023f, 0x007f, 0x0049, 0x0e41, 0x0e3f, 0x004f, 0x03c7, 0x01c9)
    case 4 => Pick(s % 16, 0x0241, 0x03cf, 0x0e79, 0x03f9, 0x0fff, 0x0e4f, 0x0e49, 0x0249, 0x0fcf, 0x03c9, 0x0e7f, 0x0fc9, 0x027f, 0x03ff, 0x0ff9, 0x0279)
    case 5 => Pick(s % 16, 0x024f)
    case _ => 0
  }

  function Sym2(r: nat, i: nat): int
  {
    match r
    case 0 => Pick(i, 68, 44, 78, 53, 18, 52, 72, 50, 75)
    case 1 => Pick(i, 60, 28, 45, 15, 2, 26, 43, 23, 51)
    case 2 => Pick(i, 74, 35, 66, 49, 10, 59, 69, 40, 70)
    case 3 => Pick(i, 54, 25, 41, 27, 6, 22, 36, 9, 63)
    case 4 => Pick(i, 19, 4, 14, 5, 0, 3, 12, 7, 31)
    case 5 => Pick(i, 57, 11, 33, 13, 8, 24, 61, 30, 58)
    case 6 => Pick(i, 77, 46, 67, 62, 16, 48, 65, 37, 73)
    case 7 => Pick(i, 56, 17, 34, 32, 1, 21, 55, 20, 39)
    case 8 => Pick(i, 76, 47, 79, 38, 29, 64, 80, 42, 71)
    case _ => 0
  }

  // ---- codebook 3 ----

  function Tab3(s: nat): int
  {
    match s / 16
    case 0 => Pick(s % 16, 0x0000, 0x1200, 0x1001, 0x1040, 0x1008, 0x2240, 0x2009, 0x2048, 0x2041, 0x2208, 0x3049, 0x2201, 0x3248, 0x4249, 0x3209, 0x3241)
    case 1 => Pick(s % 16, 0x1400, 0x1002, 0x200a, 0x2440, 0x3288, 0x2011, 0x3051, 0x2280, 0x304a, 0x3448, 0x1010, 0x2088, 0x2050, 0x1080, 0x2042, 0x2408)
    case 2 => Pick(s % 16, 0x4289, 0x3089, 0x3250, 0x4251, 0x3281, 0x2210, 0x3211, 0x2081, 0x4449, 0x424a, 0x3441, 0x320a, 0x2012, 0x3052, 0x3488, 0x3290)
    case 3 => Pick(s % 16, 0x2202, 0x2401, 0x3091, 0x2480, 0x4291, 0x3242, 0x3409, 0x4252, 0x4489, 0x2090, 0x308a, 0x3212, 0x3481, 0x3450, 0x3490, 0x3092)
    case 4 => Pick(s % 16, 0x4491, 0x4451, 0x428a, 0x4292, 0x2082, 0x2410, 0x3282, 0x3411, 0x444a, 0x3442, 0x4492, 0x448a, 0x4452, 0x340a, 0x2402, 0x3482)
    case 5 => Pick(s % 16, 0x3412)
    case _ => 0
  }

  function Sym3(r: nat, i: nat): int
  {
    match r
    case 0 => Pick(i, 0, 2, 17, 4, 6, 18, 26, 21, 44)
    case 1 => Pick(i, 3, 8, 30, 7, 10, 24, 28, 22, 45)
    case 2 => Pick(i, 29, 39, 68, 27, 33, 58, 57, 50, 63)
    case 3 => Pick(i, 1, 11, 48, 9, 14, 43, 37, 38, 59)
    case 4 => Pick(i, 5, 15, 53, 12, 13, 41, 34, 35, 55)
    case 5 => Pick(i, 23, 36, 70, 20, 32, 66, 47, 52, 67)
    case 6 => Pick(i, 16, 49, 78, 31, 54, 77, 69, 71, 80)
    case 7 => Pick(i, 19, 42, 73, 25, 40, 72, 61, 65, 76)
    case 8 => Pick(i, 51, 60, 79, 46, 56, 75, 62, 64, 74)
    case _ => 0
  }

  // ---- codebook 4 ----

  function Tab4(s: nat): int
  {
    match s / 16
    case 0 => Pick(s % 16, 0x4249, 0x3049, 0x3241, 0x3248, 0x3209, 0x1200, 0x2240, 0x0000, 0x2009, 0x2208, 0x2201, 0x2048, 0x1001, 0x2041, 0x1008, 0x1040)
    case 1 => Pick(s % 16, 0x4449, 0x4251, 0x4289, 0x424a, 0x3448, 0x3441, 0x3288, 0x3409, 0x3051, 0x304a, 0x3250, 0x3089, 0x320a, 0x3281, 0x3242, 0x3211)
    case 2 => Pick(s % 16, 0x2440, 0x2408, 0x2280, 0x2401, 0x2042, 0x2088, 0x200a, 0x2050, 0x2081, 0x2202, 0x2011, 0x2210, 0x1400, 0x1002, 0x1080, 0x1010)
    case 3 => Pick(s % 16, 0x4291, 0x4489, 0x4451, 0x4252, 0x428a, 0x444a, 0x3290, 0x3488, 0x3450, 0x3091, 0x3052, 0x3481, 0x308a, 0x3411, 0x3212, 0x4491)
    case 4 => Pick(s % 16, 0x3282, 0x340a, 0x3442, 0x4292, 0x4452, 0x448a, 0x2090, 0x2480, 0x2012, 0x2410, 0x2082, 0x2402, 0x4492, 0x3092, 0x3490, 0x3482)
    case 5 => Pick(s % 16, 0x3412)
    case _ => 0
  }

  function Sym4(r: nat, i: nat): int
  {
    match r
    case 0 => Pick(i, 7, 12, 45, 14, 8, 38, 47, 42, 72)
    case 1 => Pick(i, 15, 13, 36, 11, 1, 25, 39, 24, 58)
    case 2 => Pick(i, 46, 40, 74, 37, 27, 60, 70, 57, 77)
    case 3 => Pick(i, 5, 10, 41, 9, 4, 28, 43, 31, 62)
    case 4 => Pick(i, 6, 2, 30, 3, 0, 19, 26, 17, 51)
    case 5 => Pick(i, 34, 29, 64, 22, 18, 52, 54, 48, 67)
    case 6 => Pick(i, 44, 35, 75, 33, 23, 65, 73, 61, 80)
    case 7 => Pick(i, 32, 21, 66, 20, 16, 53, 56, 50, 68)
    case 8 => Pick(i, 71, 59, 79, 55, 49, 69, 78, 63, 76)
    case _ => 0
  }

  // ---- codebook 5 ----

  function Tab5(s: nat): int
  {
    match s / 16
    case 0 => Pick(s % 16, 0x0000, 0x03e0, 0x0020, 0x0001, 0x001f, 0x003f, 0x03e1, 0x03ff, 0x0021, 0x03c0, 0x0002, 0x0040, 0x001e, 0x03df, 0x0041, 0x03fe)
    case 1 => Pick(s % 16, 0x0022, 0x03c1, 0x005f, 0x03e2, 0x003e, 0x03a0, 0x0060, 0x001d, 0x0003, 0x03bf, 0x0023, 0x0061, 0x03fd, 0x03a1, 0x007f, 0x003d)
    case 2 => Pick(s % 16, 0x03e3, 0x03c2, 0x0042, 0x03de, 0x005e, 0x03be, 0x007e, 0x03c3, 0x005d, 0x0062, 0x0043, 0x03a2, 0x03dd, 0x001c, 0x0380, 0x0081)
    case 3 => Pick(s % 16, 0x0080, 0x039f, 0x0004, 0x009f, 0x03fc, 0x0024, 0x03e4, 0x0381, 0x003c, 0x007d, 0x03bd, 0x03a3, 0x03c4, 0x039e, 0x0082, 0x005c)
    case 4 => Pick(s % 16, 0x0044, 0x0063, 0x0382, 0x03dc, 0x009e, 0x007c, 0x039d, 0x0383, 0x0064, 0x03a4, 0x0083, 0x009d, 0x03bc, 0x009c, 0x0384, 0x0084)
    case 5 => Pick(s % 16, 0x039c)
    case _ => 0
  }

  function Sym5(r: nat, i: nat): int
  {
    match r
    case 0 => Pick(i, 80, 70, 61, 49, 46, 55, 66, 71, 78)
    case 1 => Pick(i, 76, 58, 37, 25, 21, 29, 43, 59, 73)
    case 2 => Pick(i, 67, 44, 35, 13, 9, 17, 33, 39, 60)
    case 3 => Pick(i, 52, 28, 15, 7, 1, 6, 19, 32, 54)
    case 4 => Pick(i, 45, 23, 12, 4, 0, 3, 10, 24, 50)
    case 5 => Pick(i, 56, 31, 20, 5, 2, 8, 16, 26, 53)
    case 6 => Pick(i, 63, 40, 36, 18, 11, 14, 34, 42, 64)
    case 7 => Pick(i, 69, 57, 38, 30, 22, 27, 41, 65, 72)
    case 8 => Pick(i, 77, 75, 68, 51, 48, 47, 62, 74, 79)
    case _ => 0
  }

  // ---- codebook 6 ----

  function Tab6(s: nat): int
  {
    match s / 16
    case 0 => Pick(s % 16, 0x0000, 0x0020, 0x001f, 0x0001, 0x03e0, 0x0021, 0x03e1, 0x003f, 0x03ff, 0x005f, 0x0041, 0x03c1, 0x03df, 0x03c0, 0x03e2, 0x0040)
    case 1 => Pick(s % 16, 0x003e, 0x0022, 0x001e, 0x03fe, 0x0002, 0x005e, 0x03c2, 0x03de, 0x0042, 0x03a1, 0x0061, 0x007f, 0x03e3, 0x03bf, 0x0023, 0x003d)
    case 2 => Pick(s % 16, 0x03fd, 0x0060, 0x03a0, 0x001d, 0x0003, 0x0062, 0x03be, 0x03c3, 0x0043, 0x007e, 0x005d, 0x03dd, 0x03a2, 0x0063, 0x007d, 0x03bd)
    case 3 => Pick(s % 16, 0x03a3, 0x003c, 0x03fc, 0x0081, 0x0381, 0x039f, 0x0024, 0x009f, 0x03e4, 0x001c, 0x0382, 0x039e, 0x0044, 0x03dc, 0x0380, 0x0082)
    case 4 => Pick(s % 16, 0x009e, 0x03c4, 0x0080, 0x005c, 0x0004, 0x03bc, 0x03a4, 0x007c, 0x009d, 0x0064, 0x0083, 0x0383, 0x039d, 0x0084, 0x0384, 0x039c)
    case 5 => Pick(s % 16, 0x009c)
    case _ => 0
  }

  function Sym6(r: nat, i: nat): int
  {
    match r
    case 0 => Pick(i, 79, 76, 59, 53, 62, 52, 58, 75, 78)
    case 1 => Pick(i, 69, 47, 38, 29, 34, 25, 44, 48, 70)
    case 2 => Pick(i, 61, 43, 23, 12, 13, 11, 22, 39, 65)
    case 3 => Pick(i, 50, 32, 19, 8, 4, 6, 14, 28, 56)
    case 4 => Pick(i, 57, 35, 18, 2, 0, 3, 20, 36, 68)
    case 5 => Pick(i, 49, 31, 16, 7, 1, 5, 17, 30, 54)
    case 6 => Pick(i, 67, 42, 21, 9, 15, 10, 24, 40, 60)
    case 7 => Pick(i, 71, 46, 41, 27, 33, 26, 37, 45, 73)
    case 8 => Pick(i, 80, 72, 64, 55, 66, 51, 63, 74, 77)
    case _ => 0
  }

  // ---- codebook 7 ----

  function Tab7(s: nat): int
  {
    match s / 16
    case 0 => Pick(s % 16, 0x0000, 0x0420, 0x0401, 0x0821, 0x0841, 0x0822, 0x0440, 0x0402, 0x0861, 0x0823, 0x0842, 0x0460, 0x0403, 0x0843, 0x0862, 0x0824)
    case 1 => Pick(s % 16, 0x0881, 0x0825, 0x08a1, 0x0863, 0x0844, 0x0404, 0x0480, 0x0882, 0x0845, 0x08a2, 0x0405, 0x08c1, 0x04a0, 0x0826, 0x0883, 0x0865)
    case 2 => Pick(s % 16, 0x0864, 0x08a3, 0x0846, 0x08c2, 0x0827, 0x0866, 0x0406, 0x04c0, 0x0884, 0x08e1, 0x0885, 0x08e2, 0x08a4, 0x08c3, 0x0847, 0x08e3)
    case 3 => Pick(s % 16, 0x08c4, 0x08a5, 0x0886, 0x0867, 0x04e0, 0x0407, 0x08c5, 0x08a6, 0x08e4, 0x0887, 0x08a7, 0x08e5, 0x08e6, 0x08c6, 0x08c7, 0x08e7)
    case _ => 0
  }

  function Sym7(r: nat, i: nat): int
  {
    match r
    case 0 => Pick(i, 0, 2, 7, 12, 21, 26, 38, 53)
    case 1 => Pick(i, 1, 3, 5, 9, 15, 17, 29, 36)
    case 2 => Pick(i, 6, 4, 10, 13, 20, 24, 34, 46)
    case 3 => Pick(i, 11, 8, 14, 19, 32, 31, 37, 51)
    case 4 => Pick(i, 22, 16, 23, 30, 40, 42, 50, 57)
    case 5 => Pick(i, 28, 18, 25, 33, 44, 49, 55, 58)
    case 6 => Pick(i, 39, 27, 35, 45, 48, 54, 61, 62)
    case 7 => Pick(i, 52, 41, 43, 47, 56, 59, 60, 63)
    case _ => 0
  }

  // ---- codebook 8 ----

  function Tab8(s: nat): int
  {
    match s / 16
    case 0 => Pick(s % 16, 0x0821, 0x0841, 0x0420, 0x0822, 0x0401, 0x0842, 0x0000, 0x0440, 0x0402, 0x0861, 0x0823, 0x0862, 0x0843, 0x0863, 0x0881, 0x0824)
    case 1 => Pick(s % 16, 0x0882, 0x0844, 0x0460, 0x0403, 0x0883, 0x0864, 0x08a2, 0x08a1, 0x0845, 0x0825, 0x08a3, 0x0865, 0x0884, 0x08a4, 0x0404, 0x0885)
    case 2 => Pick(s % 16, 0x0480, 0x0846, 0x08c2, 0x08c1, 0x0826, 0x0866, 0x08c3, 0x08a5, 0x04a0, 0x08c4, 0x0405, 0x0886, 0x08e1, 0x08e2, 0x0847, 0x08c5)
    case 3 => Pick(s % 16, 0x08e3, 0x0827, 0x08a6, 0x0867, 0x08c6, 0x08e4, 0x04c0, 0x0887, 0x0406, 0x08e5, 0x08e6, 0x08c7, 0x08a7, 0x04e0, 0x0407, 0x08e7)
    case _ => 0
  }

  function Sym8(r: nat, i: nat): int
  {
    match r
    case 0 => Pick(i, 6, 4, 8, 19, 30, 42, 56, 62)
    case 1 => Pick(i, 2, 0, 3, 10, 15, 25, 36, 49)
    case 2 => Pick(i, 7, 1, 5, 12, 17, 24, 33, 46)
    case 3 => Pick(i, 18, 9, 11, 13, 21, 27, 37, 51)
    case 4 => Pick(i, 32, 14, 16, 20, 28, 31, 43, 55)
    case 5 => Pick(i, 40, 23, 22, 26, 29, 39, 50, 60)
    case 6 => Pick(i, 54, 35, 34, 38, 41, 47, 52, 59)
    case 7 => Pick(i, 61, 44, 45, 48, 53, 57, 58, 63)
    case _ => 0
  }

  // ---- codebook 9 ----

  function Tab9(s: nat): int
  {
    match s / 16
    case 0 => Pick(s % 16, 0x0000, 0x0420, 0x0401, 0x0821, 0x0841, 0x0822, 0x0440, 0x0402, 0x0861, 0x0842, 0x0823, 0x0460, 0x0403, 0x0843, 0x0862, 0x0824)
    case 1 => Pick(s % 16, 0x0881, 0x0844, 0x0825, 0x0882, 0x0863, 0x0404, 0x0480, 0x08a1, 0x0845, 0x0826, 0x0864, 0x08a2, 0x08c1, 0x0883, 0x0405, 0x0846)
    case 2 => Pick(s % 16, 0x04a0, 0x0827, 0x0865, 0x0828, 0x0901, 0x0884, 0x08a3, 0x08c2, 0x08e1, 0x0406, 0x0902, 0x0848, 0x0866, 0x0847, 0x0885, 0x0921)
    case 3 => Pick(s % 16, 0x0829, 0x08e2, 0x04c0, 0x08a4, 0x08c3, 0x0903, 0x0407, 0x0922, 0x0868, 0x0886, 0x0867, 0x0408, 0x0941, 0x08c4, 0x0849, 0x08a5)
    case 4 => Pick(s % 16, 0x0500, 0x04e0, 0x08e3, 0x0942, 0x0923, 0x0904, 0x082a, 0x08e4, 0x08c5, 0x08a6, 0x0888, 0x0887, 0x0869, 0x0961, 0x08a8, 0x0520)
    case 5 => Pick(s % 16, 0x0905, 0x0943, 0x084a, 0x0409, 0x0962, 0x0924, 0x08c6, 0x0981, 0x0889, 0x0906, 0x082b, 0x0925, 0x0944, 0x08a7, 0x08e5, 0x084b)
    case 6 => Pick(s % 16, 0x082c, 0x0982, 0x0963, 0x086a, 0x08a9, 0x08c7, 0x0907, 0x0964, 0x040a, 0x08e6, 0x0983, 0x0540, 0x0945, 0x088a, 0x08c8, 0x084c)
    case 7 => Pick(s % 16, 0x0926, 0x0927, 0x088b, 0x0560, 0x08c9, 0x086b, 0x08aa, 0x0908, 0x08e8, 0x0985, 0x086c, 0x0965, 0x08e7, 0x0984, 0x0966, 0x0946)
    case 8 => Pick(s % 16, 0x088c, 0x08e9, 0x08ab, 0x040b, 0x0986, 0x08ca, 0x0580, 0x0947, 0x08ac, 0x08ea, 0x0928, 0x040c, 0x0967, 0x0909, 0x0929, 0x0948)
    case 9 => Pick(s % 16, 0x08eb, 0x0987, 0x08cb, 0x090b, 0x0968, 0x08ec, 0x08cc, 0x090a, 0x0949, 0x090c, 0x092a, 0x092b, 0x092c, 0x094b, 0x0989, 0x094a)
    case 10 => Pick(s % 16, 0x0969, 0x0988, 0x096a, 0x098a, 0x098b, 0x094c, 0x096b, 0x096c, 0x098c)
    case _ => 0
  }

  function Sym9(r: nat, i: nat): int
  {
    match r
    case 0 => Pick(i, 0, 2, 7, 12, 21, 30, 41, 54, 59, 83, 104, 131, 139)
    case 1 => Pick(i, 1, 3, 5, 10, 15, 18, 25, 33, 35, 48, 70, 90, 96)
    case 2 => Pick(i, 6, 4, 9, 13, 17, 24, 31, 45, 43, 62, 82, 95, 111)
    case 3 => Pick(i, 11, 8, 14, 20, 26, 34, 44, 58, 56, 76, 99, 117, 122)
    case 4 => Pick(i, 22, 16, 19, 29, 37, 46, 57, 75, 74, 88, 109, 114, 128)
    case 5 => Pick(i, 32, 23, 27, 38, 51, 63, 73, 93, 78, 100, 118, 130, 136)
    case 6 => Pick(i, 50, 28, 39, 52, 61, 72, 86, 101, 110, 116, 133, 146, 150)
    case 7 => Pick(i, 65, 40, 49, 66, 71, 94, 105, 124, 120, 129, 137, 144, 149)
    case 8 => Pick(i, 64, 36, 42, 53, 69, 80, 89, 102, 119, 141, 151, 147, 153)
    case 9 => Pick(i, 79, 47, 55, 68, 85, 91, 112, 113, 138, 142, 154, 155, 156)
    case 10 => Pick(i, 107, 60, 67, 81, 92, 108, 127, 135, 143, 152, 159, 157, 165)
    case 11 => Pick(i, 115, 77, 84, 98, 103, 123, 126, 140, 148, 160, 162, 166, 167)
    case 12 => Pick(i, 134, 87, 97, 106, 125, 121, 132, 145, 161, 158, 163, 164, 168)
    case _ => 0
  }

  // ---- codebook 10 ----

  function Tab10(s: nat): int
  {
    match s / 16
    case 0 => Pick(s % 16, 0x0821, 0x0822, 0x0841, 0x0842, 0x0420, 0x0401, 0x0823, 0x0862, 0x0861, 0x0843, 0x0863, 0x0440, 0x0402, 0x0844, 0x0882, 0x0824)
    case 1 => Pick(s % 16, 0x0881, 0x0000, 0x0883, 0x0864, 0x0460, 0x0403, 0x0884, 0x0845, 0x08a2, 0x0825, 0x08a1, 0x08a3, 0x0865, 0x08a4, 0x0885, 0x08c2)
    case 2 => Pick(s % 16, 0x0846, 0x08c3, 0x0480, 0x08c1, 0x0404, 0x0826, 0x0866, 0x08a5, 0x08c4, 0x0886, 0x08c5, 0x08e2, 0x0867, 0x0847, 0x08a6, 0x0902)
    case 3 => Pick(s % 16, 0x08e3, 0x04a0, 0x08e1, 0x0405, 0x0901, 0x0827, 0x0903, 0x08e4, 0x0887, 0x0848, 0x08c6, 0x08e5, 0x0828, 0x0868, 0x0904, 0x0888)
    case 4 => Pick(s % 16, 0x08a7, 0x0905, 0x08a8, 0x08e6, 0x08c7, 0x0922, 0x04c0, 0x08c8, 0x0923, 0x0869, 0x0921, 0x0849, 0x0406, 0x0906, 0x0924, 0x0889)
    case 5 => Pick(s % 16, 0x0942, 0x0829, 0x08e7, 0x0907, 0x0925, 0x08e8, 0x0943, 0x08a9, 0x0944, 0x084a, 0x0941, 0x086a, 0x0926, 0x08c9, 0x0500, 0x088a)
    case 6 => Pick(s % 16, 0x04e0, 0x0962, 0x08e9, 0x0963, 0x0946, 0x082a, 0x0961, 0x0927, 0x0407, 0x0908, 0x0945, 0x086b, 0x08aa, 0x0909, 0x0965, 0x0408)
    case 7 => Pick(s % 16, 0x0964, 0x084b, 0x08ea, 0x08ca, 0x0947, 0x088b, 0x082b, 0x0982, 0x0928, 0x0983, 0x0966, 0x08ab, 0x0984, 0x0967, 0x0985, 0x086c)
    case 8 => Pick(s % 16, 0x08cb, 0x0520, 0x0948, 0x0540, 0x0981, 0x0409, 0x088c, 0x0929, 0x0986, 0x084c, 0x090a, 0x092a, 0x082c, 0x0968, 0x0987, 0x08eb)
    case 9 => Pick(s % 16, 0x08ac, 0x08cc, 0x0949, 0x090b, 0x0988, 0x040a, 0x08ec, 0x0560, 0x094a, 0x0969, 0x096a, 0x040b, 0x096b, 0x092b, 0x094b, 0x0580)
    case 10 => Pick(s % 16, 0x090c, 0x0989, 0x094c, 0x092c, 0x096c, 0x098b, 0x040c, 0x098a, 0x098c)
    case _ => 0
  }

  function Sym10(r: nat, i: nat): int
  {
    match r
    case 0 => Pick(i, 17, 5, 12, 21, 36, 51, 76, 104, 111, 133, 149, 155, 166)
    case 1 => Pick(i, 4, 0, 1, 6, 15, 25, 37, 53, 60, 81, 101, 118, 140)
    case 2 => Pick(i, 11, 2, 3, 9, 13, 23, 32, 45, 57, 75, 89, 113, 137)
    case 3 => Pick(i, 20, 8, 7, 10, 19, 28, 38, 44, 61, 73, 91, 107, 127)
    case 4 => Pick(i, 34, 16, 14, 18, 22, 30, 41, 56, 63, 79, 95, 117, 134)
    case 5 => Pick(i, 49, 26, 24, 27, 29, 39, 46, 64, 66, 87, 108, 123, 144)
    case 6 => Pick(i, 70, 35, 31, 33, 40, 42, 58, 68, 71, 93, 115, 128, 145)
    case 7 => Pick(i, 96, 50, 43, 48, 55, 59, 67, 82, 85, 98, 114, 143, 150)
    case 8 => Pick(i, 94, 52, 47, 54, 62, 65, 77, 83, 105, 109, 138, 147, 160)
    case 9 => Pick(i, 129, 74, 69, 72, 78, 84, 92, 103, 120, 135, 139, 157, 163)
    case 10 => Pick(i, 131, 90, 80, 86, 88, 106, 100, 116, 130, 146, 152, 158, 162)
    case 11 => Pick(i, 151, 102, 97, 99, 112, 110, 122, 125, 141, 153, 154, 156, 164)
    case 12 => Pick(i, 159, 132, 119, 121, 124, 126, 136, 142, 148, 161, 167, 165, 168)
    case _ => 0
  }

  // ---- codebook 11 ----

  function Tab11(s: nat): int
  {
    match s / 16
    case 0 => Pick(s % 16, 0x0000, 0x2041, 0x2410, 0x1040, 0x1001, 0x2081, 0x2042, 0x2082, 0x2043, 0x20c1, 0x20c2, 0x1080, 0x2083, 0x1002, 0x20c3, 0x2101)
    case 1 => Pick(s % 16, 0x2044, 0x2102, 0x2084, 0x2103, 0x20c4, 0x10c0, 0x1003, 0x2141, 0x2142, 0x2085, 0x2104, 0x2045, 0x2143, 0x20c5, 0x2144, 0x2105)
    case 2 => Pick(s % 16, 0x2182, 0x2086, 0x2181, 0x2183, 0x20c6, 0x2046, 0x2110, 0x20d0, 0x2405, 0x2403, 0x2404, 0x2184, 0x2406, 0x1100, 0x2106, 0x1004)
    case 3 => Pick(s % 16, 0x2090, 0x2145, 0x2150, 0x2407, 0x2402, 0x2408, 0x2087, 0x21c2, 0x20c7, 0x2185, 0x2146, 0x2190, 0x240a, 0x21c3, 0x21c1, 0x2409)
    case 4 => Pick(s % 16, 0x21d0, 0x2050, 0x2047, 0x2107, 0x240b, 0x21c4, 0x240c, 0x2210, 0x2401, 0x2186, 0x2250, 0x2088, 0x2147, 0x2290, 0x240d, 0x2203)
    case 5 => Pick(s % 16, 0x2202, 0x20c8, 0x1140, 0x240e, 0x22d0, 0x21c5, 0x2108, 0x2187, 0x21c6, 0x1005, 0x2204, 0x240f, 0x2310, 0x2048, 0x2201, 0x2390)
    case 6 => Pick(s % 16, 0x2148, 0x2350, 0x20c9, 0x2205, 0x21c7, 0x2089, 0x2206, 0x2242, 0x2243, 0x23d0, 0x2109, 0x2188, 0x1180, 0x2244, 0x2149, 0x2207)
    case 7 => Pick(s % 16, 0x21c8, 0x2049, 0x2283, 0x1006, 0x2282, 0x2241, 0x2245, 0x210a, 0x208a, 0x2246, 0x20ca, 0x2189, 0x2284, 0x2208, 0x2285, 0x2247)
    case 8 => Pick(s % 16, 0x22c3, 0x204a, 0x11c0, 0x2286, 0x21c9, 0x20cb, 0x214a, 0x2281, 0x210b, 0x22c2, 0x2342, 0x218a, 0x2343, 0x208b, 0x1400, 0x214b)
    case 9 => Pick(s % 16, 0x22c5, 0x22c4, 0x2248, 0x21ca, 0x2209, 0x1010, 0x210d, 0x1007, 0x20cd, 0x22c6, 0x2341, 0x2344, 0x2303, 0x208d, 0x2345, 0x220a)
    case 10 => Pick(s % 16, 0x218b, 0x2288, 0x2287, 0x2382, 0x2304, 0x204b, 0x210c, 0x22c1, 0x20cc, 0x204d, 0x2302, 0x21cb, 0x20ce, 0x214c, 0x214d, 0x2384)
    case 11 => Pick(s % 16, 0x210e, 0x22c7, 0x2383, 0x2305, 0x2346, 0x2306, 0x1200, 0x22c8, 0x208c, 0x2249, 0x2385, 0x218d, 0x228a, 0x23c2, 0x220b, 0x224a)
    case 12 => Pick(s % 16, 0x2386, 0x2289, 0x214e, 0x22c9, 0x2381, 0x208e, 0x218c, 0x204c, 0x2348, 0x1008, 0x2347, 0x21cc, 0x2307, 0x21cd, 0x23c3, 0x2301)
    case 13 => Pick(s % 16, 0x218e, 0x208f, 0x23c5, 0x23c4, 0x204e, 0x224b, 0x210f, 0x2387, 0x220d, 0x2349, 0x220c, 0x214f, 0x20cf, 0x228b, 0x22ca, 0x2308)
    case 14 => Pick(s % 16, 0x23c6, 0x23c7, 0x220e, 0x23c1, 0x21ce, 0x1240, 0x1009, 0x224d, 0x224c, 0x2309, 0x2388, 0x228d, 0x2389, 0x230a, 0x218f, 0x21cf)
    case 15 => Pick(s % 16, 0x224e, 0x23c8, 0x22cb, 0x22ce, 0x204f, 0x228c, 0x228e, 0x234b, 0x234a, 0x22cd, 0x22cc, 0x220f, 0x238b, 0x234c, 0x230d, 0x23c9)
    case 16 => Pick(s % 16, 0x238a, 0x1280, 0x230b, 0x224f, 0x100a, 0x230c, 0x12c0, 0x230e, 0x228f, 0x234d, 0x100d, 0x238c, 0x23ca, 0x23cb, 0x22cf, 0x238d)
    case 17 => Pick(s % 16, 0x1340, 0x100b, 0x234e, 0x23cc, 0x23cd, 0x230f, 0x1380, 0x238e, 0x234f, 0x1300, 0x238f, 0x100e, 0x100c, 0x23ce, 0x13c0, 0x100f)
    case 18 => Pick(s % 16, 0x23cf)
    case _ => 0
  }

  function Sym11(r: nat, i: nat): int
  {
    match r
    case 0 => Pick(i, 0, 4, 13, 22, 47, 89, 115, 151, 201, 230, 260, 273, 284, 266, 283, 287, 149)
    case 1 => Pick(i, 3, 1, 6, 8, 16, 27, 37, 66, 93, 113, 129, 165, 199, 169, 212, 244, 65)
    case 2 => Pick(i, 11, 5, 7, 12, 18, 25, 33, 54, 75, 101, 120, 141, 184, 157, 197, 209, 48)
    case 3 => Pick(i, 21, 9, 10, 14, 20, 29, 36, 56, 81, 98, 122, 133, 168, 152, 172, 220, 39)
    case 4 => Pick(i, 45, 15, 17, 19, 26, 31, 46, 67, 86, 106, 119, 136, 166, 150, 176, 214, 38)
    case 5 => Pick(i, 82, 23, 24, 28, 30, 49, 58, 76, 96, 110, 134, 143, 173, 174, 194, 219, 50)
    case 6 => Pick(i, 108, 34, 32, 35, 43, 57, 73, 87, 107, 123, 139, 160, 198, 187, 208, 238, 59)
    case 7 => Pick(i, 130, 62, 55, 61, 69, 85, 88, 100, 112, 132, 147, 171, 203, 205, 228, 239, 64)
    case 8 => Pick(i, 182, 94, 80, 79, 90, 99, 102, 111, 125, 148, 159, 190, 218, 216, 226, 251, 71)
    case 9 => Pick(i, 229, 117, 103, 104, 109, 118, 121, 127, 146, 185, 191, 213, 232, 231, 240, 259, 74)
    case 10 => Pick(i, 257, 135, 116, 114, 124, 126, 131, 162, 161, 193, 188, 221, 245, 235, 246, 264, 77)
    case 11 => Pick(i, 262, 167, 137, 128, 145, 144, 153, 177, 183, 195, 222, 242, 250, 249, 243, 270, 84)
    case 12 => Pick(i, 281, 207, 170, 156, 164, 179, 181, 204, 223, 233, 237, 258, 261, 254, 263, 277, 92)
    case 13 => Pick(i, 272, 154, 138, 140, 155, 158, 180, 202, 200, 217, 248, 247, 253, 265, 274, 280, 97)
    case 14 => Pick(i, 278, 196, 163, 178, 175, 186, 192, 215, 234, 236, 256, 252, 267, 271, 279, 282, 95)
    case 15 => Pick(i, 286, 227, 189, 206, 211, 210, 224, 225, 241, 255, 268, 269, 275, 276, 285, 288, 105)
    case 16 => Pick(i, 142, 72, 52, 41, 42, 40, 44, 51, 53, 63, 60, 68, 70, 78, 83, 91, 2)
    case _ => 0
  }

  // ---- length counts ----

  /** The table entry of a spectral codebook. */
  function SpecInfo(cb: nat): HuffInfo
  {
    match cb
    case 1 => HuffInfo(11, [1, 0, 0, 0, 8, 0, 24, 0, 24, 8, 16, 0, 0, 0, 0, 0, 0, 0, 0, 0], 0)
    case 2 => HuffInfo(9, [0, 0, 1, 1, 7, 24, 15, 19, 14, 0, 0, 0, 0, 0, 0, 0, 0, 0, 0, 0], 81)
    case 3 => HuffInfo(16, [1, 0, 0, 4, 2, 6, 3, 5, 15, 15, 8, 9, 3, 3, 5, 2, 0, 0, 0, 0], 162)
    case 4 => HuffInfo(12, [0, 0, 0, 10, 6, 0, 9, 21, 8, 14, 11, 2, 0, 0, 0, 0, 0, 0, 0, 0], 243)
    case 5 => HuffInfo(13, [1, 0, 0, 4, 4, 0, 4, 12, 12, 12, 18, 10, 4, 0, 0, 0, 0, 0, 0, 0], 324)
    case 6 => HuffInfo(11, [0, 0, 0, 9, 0, 16, 13, 8, 23, 8, 4, 0, 0, 0, 0, 0, 0, 0, 0, 0], 405)
    case 7 => HuffInfo(12, [1, 0, 2, 1, 0, 4, 5, 10, 14, 15, 8, 4, 0, 0, 0, 0, 0, 0, 0, 0], 486)
    case 8 => HuffInfo(10, [0, 0, 1, 5, 7, 10, 14, 15, 8, 4, 0, 0, 0, 0, 0, 0, 0, 0, 0, 0], 550)
    case 9 => HuffInfo(15, [1, 0, 2, 1, 0, 4, 3, 8, 11, 20, 31, 38, 32, 14, 4, 0, 0, 0, 0, 0], 614)
    case 10 => HuffInfo(12, [0, 0, 0, 3, 8, 14, 17, 25, 31, 41, 22, 8, 0, 0, 0, 0, 0, 0, 0, 0], 783)
    case 11 => HuffInfo(12, [0, 0, 0, 2, 6, 7, 16, 59, 55, 95, 43, 6, 0, 0, 0, 0, 0, 0, 0, 0], 952)
    case _ => HuffInfo(0, [], 0)
  }

  function ScaleFactInfo(): HuffInfo
  {
    HuffInfo(19, [1, 0, 1, 3, 2, 4, 3, 5, 4, 6, 6, 6, 5, 8, 4, 7, 3, 7, 46, 0], 0)
  }

  /** Number of symbols of a spectral codebook. */
  function SpecSize(cb: nat): nat
  {
    match cb
    case 7 => 64 case 8 => 64 case 9 => 169 case 10 => 169 case 11 => 289 case _ => 81
  }

  /** Symbol s of a spectral codebook. */
  function SpecSymbol(cb: nat, s: nat): int
  {
    match cb
    case 1 => Tab1(s) case 2 => Tab2(s) case 3 => Tab3(s) case 4 => Tab4(s) case 5 => Tab5(s) case 6 => Tab6(s)
    case 7 => Tab7(s) case 8 => Tab8(s) case 9 => Tab9(s) case 10 => Tab10(s) case 11 => Tab11(s) case _ => 0
  }

  /** The codebook whose symbols include entry i of the joint table. */
  function SpecBookAt(i: nat): nat
  {
    if i < 81 then 1 else if i < 162 then 2 else if i < 243 then 3 else if i < 324 then 4 else if i < 405 then 5
    else if i < 486 then 6 else if i < 550 then 7 else if i < 614 then 8 else if i < 783 then 9
    else if i < 952 then 10 else 11
  }

  /** huffTabSpec: the symbol tables one after the other. */
  function HuffTabSpec(): seq<int>
  {
    seq(1241, i requires 0 <= i < 1241 => SpecSymbol(SpecBookAt(i), i - SpecInfo(SpecBookAt(i)).offset))
  }

  function HuffTabScaleFact(): seq<int>
  {
    seq(121, i requires 0 <= i < 121 => TabSf(i))
  }

  lemma SpecTableEntry(cb: nat, s: nat)
    requires 1 <= cb <= 11 && s < SpecSize(cb)
    ensures SpecInfo(cb).offset + s < 1241 && HuffTabSpec()[SpecInfo(cb).offset + s] == SpecSymbol(cb, s)
  {
    hide SpecSymbol;
    assert SpecBookAt(SpecInfo(cb).offset + s) == cb;
  }

  lemma TwoMore(c: seq<nat>, k: nat)
    requires k + 2 <= |c|
    ensures Next(c, k + 2) == 4 * Next(c, k) + 2 * c[k] + c[k + 1] && Cum(c, k + 2) == Cum(c, k) + c[k] + c[k + 1]
  {
    assert Next(c, k + 1) == 2 * Next(c, k) + c[k] && Cum(c, k + 1) == Cum(c, k) + c[k];
  }

  lemma NextOf10(c: seq<nat>)
    requires |c| == 20
    ensures Next(c, 10) == 512 * c[0] + 256 * c[1] + 128 * c[2] + 64 * c[3] + 32 * c[4] + 16 * c[5] + 8 * c[6] + 4 * c[7] + 2 * c[8] + c[9]
    ensures Cum(c, 10) == c[0] + c[1] + c[2] + c[3] + c[4] + c[5] + c[6] + c[7] + c[8] + c[9]
  {
    assert Next(c, 0) == 0 && Cum(c, 0) == 0;
    hide Next, Cum;
    TwoMore(c, 0);
    TwoMore(c, 2);
    TwoMore(c, 4);
    TwoMore(c, 6);
    TwoMore(c, 8);
  }

  lemma NextOf20(c: seq<nat>)
    requires |c| == 20
    ensures Next(c, 20) == 1024 * (512 * c[0] + 256 * c[1] + 128 * c[2] + 64 * c[3] + 32 * c[4] + 16 * c[5] + 8 * c[6] + 4 * c[7] + 2 * c[8] + c[9])
                         + 512 * c[10] + 256 * c[11] + 128 * c[12] + 64 * c[13] + 32 * c[14] + 16 * c[15] + 8 * c[16] + 4 * c[17] + 2 * c[18] + c[19]
    ensures Cum(c, 20) == c[0] + c[1] + c[2] + c[3] + c[4] + c[5] + c[6] + c[7] + c[8] + c[9]
                        + c[10] + c[11] + c[12] + c[13] + c[14] + c[15] + c[16] + c[17] + c[18] + c[19]
  {
    hide Next, Cum;
    NextOf10(c);
    TwoMore(c, 10);
    TwoMore(c, 12);
    TwoMore(c, 14);
    TwoMore(c, 16);
    TwoMore(c, 18);
  }

  /** A table of 20 lengths is complete exactly when the code past its last one is 2^20. */
  lemma CompleteOf20(c: seq<nat>)
    requires |c| == 20
    ensures Complete(c) <==> Next(c, 20) == 0x10_0000
  {
    KraftIsNext(c, 20, 20);
    UpEight(1);
    assert Pow2(12) == 16 * Pow2(8) && Pow2(20) == 16 * (16 * Pow2(12));
  }

  // ---- scalefactor codebook ----

  function TabSf(s: nat): int
  {
    match s / 16
    case 0 => Pick(s % 16, 0, -1, 1, -2, 2, -3, 3, -4, 4, -5, 5, 6, -6, 7, -7, 8)
    case 1 => Pick(s % 16, -8, 9, -9, 10, -10, -11, 11, 12, -12, 13, -13, 14, -14, 16, 15, 17)
    case 2 => Pick(s % 16, 18, -15, -17, -16, 19, -18, -19, 20, -20, 21, -21, 22, -22, 23, -23, -25)
    case 3 => Pick(s % 16, 25, -27, -24, -26, 24, -28, 27, 29, -30, -29, 26, -31, -34, -33, -32, -36)
    case 4 => Pick(s % 16, 28, -35, -38, -37, 30, -39, -41, -57, -59, -58, -60, 38, 39, 40, 41, 42)
    case 5 => Pick(s % 16, 57, 37, 31, 32, 33, 34, 35, 36, 44, 51, 52, 53, 54, 55, 56, 50)
    case 6 => Pick(s % 16, 45, 46, 47, 48, 49, 58, -54, -52, -51, -50, -55, 43, 60, 59, -56, -53)
    case 7 => Pick(s % 16, -45, -44, -42, -40, -43, -49, -48, -46, -47)
    case _ => 0
  }

  function SymSf(r: nat, i: nat): int
  {
    match r
    case 0 => Pick(i, 74, 72, 73, 71, 110, 106, 102, 111, 103, 104, 105)
    case 1 => Pick(i, 117, 118, 120, 119, 112, 113, 116, 114, 70, 115, 69)
    case 2 => Pick(i, 66, 67, 63, 65, 60, 61, 62, 59, 56, 57, 53)
    case 3 => Pick(i, 49, 51, 47, 50, 46, 44, 42, 40, 38, 37, 34)
    case 4 => Pick(i, 35, 33, 28, 26, 24, 21, 20, 18, 16, 14, 12)
    case 5 => Pick(i, 9, 7, 5, 3, 1, 0, 2, 4, 6, 8, 10)
    case 6 => Pick(i, 11, 13, 15, 17, 19, 22, 23, 25, 27, 30, 29)
    case 7 => Pick(i, 31, 32, 36, 39, 41, 43, 45, 52, 48, 58, 54)
    case 8 => Pick(i, 64, 55, 68, 82, 83, 84, 85, 86, 87, 81, 75)
    case 9 => Pick(i, 76, 77, 78, 79, 107, 88, 96, 97, 98, 99, 100)
    case 10 => Pick(i, 95, 89, 90, 91, 92, 93, 94, 80, 101, 109, 108)
    case _ => 0
  }

  // ---- packing of coefficient vectors in table entries ----

  function NonZero(v: int): nat { if v == 0 then 0 else 1 }

  function PackQuad(signed: bool, w: int, x: int, y: int, z: int): nat {
    (if signed then 0 else NonZero(w) + NonZero(x) + NonZero(y) + NonZero(z)) * 0x1000
    + (w % 8) * 512 + (x % 8) * 64 + (y % 8) * 8 + z % 8
  }

  function PackPair(signed: bool, y: int, z: int): nat {
    (if signed then 0 else NonZero(y) + NonZero(z)) * 0x400 + (y % 32) * 32 + z % 32
  }

  function PackEsc(y: int, z: int): nat {
    (NonZero(y) + NonZero(z)) * 0x1000 + (y % 64) * 64 + z % 64
  }

  lemma Cover1a(w: int, x: int, y: int, z: int)
    requires -1 <= w <= -1 && -1 <= x <= 1 && -1 <= y <= 1 && -1 <= z <= 1
    ensures 0 <= Sym1(3 * w + x + 4, 3 * y + z + 4) < 81 && Tab1(Sym1(3 * w + x + 4, 3 * y + z + 4)) == PackQuad(true, w, x, y, z)
  {
  }

  lemma Cover1b(w: int, x: int, y: int, z: int)
    requires 0 <= w <= 1 && -1 <= x <= 1 && -1 <= y <= 1 && -1 <= z <= 1
    ensures 0 <= Sym1(3 * w + x + 4, 3 * y + z + 4) < 81 && Tab1(Sym1(3 * w + x + 4, 3 * y + z + 4)) == PackQuad(true, w, x, y, z)
  {
  }

  /** Every coefficient vector of codebook 1 has a symbol. */
  lemma Cover1(w: int, x: int, y: int, z: int)
    requires -1 <= w <= 1 && -1 <= x <= 1 && -1 <= y <= 1 && -1 <= z <= 1
    ensures 0 <= Sym1(3 * w + x + 4, 3 * y + z + 4) < 81 && Tab1(Sym1(3 * w + x + 4, 3 * y + z + 4)) == PackQuad(true, w, x, y, z)
  {
    hide *;
    if w <= -1 { Cover1a(w, x, y, z); } else { Cover1b(w, x, y, z); }
  }

  lemma Cover2a(w: int, x: int, y: int, z: int)
    requires -1 <= w <= -1 && -1 <= x <= 1 && -1 <= y <= 1 && -1 <= z <= 1
    ensures 0 <= Sym2(3 * w + x + 4, 3 * y + z + 4) < 81 && Tab2(Sym2(3 * w + x + 4, 3 * y + z + 4)) == PackQuad(true, w, x, y, z)
  {
  }

  lemma Cover2b(w: int, x: int, y: int, z: int)
    requires 0 <= w <= 1 && -1 <= x <= 1 && -1 <= y <= 1 && -1 <= z <= 1
    ensures 0 <= Sym2(3 * w + x + 4, 3 * y + z + 4) < 81 && Tab2(Sym2(3 * w + x + 4, 3 * y + z + 4)) == PackQuad(true, w, x, y, z)
  {
  }

  /** Every coefficient vector of codebook 2 has a symbol. */
  lemma Cover2(w: int, x: int, y: int, z: int)
    requires -1 <= w <= 1 && -1 <= x <= 1 && -1 <= y <= 1 && -1 <= z <= 1
    ensures 0 <= Sym2(3 * w + x + 4, 3 * y + z + 4) < 81 && Tab2(Sym2(3 * w + x + 4, 3 * y + z + 4)) == PackQuad(true, w, x, y, z)
  {
    hide *;
    if w <= -1 { Cover2a(w, x, y, z); } else { Cover2b(w, x, y, z); }
  }

  lemma Cover3a(w: int, x: int, y: int, z: int)
    requires 0 <= w <= 0 && 0 <= x <= 2 && 0 <= y <= 2 && 0 <= z <= 2
    ensures 0 <= Sym3(3 * w + x, 3 * y + z) < 81 && Tab3(Sym3(3 * w + x, 3 * y + z)) == PackQuad(false, w, x, y, z)
  {
  }

  lemma Cover3b(w: int, x: int, y: int, z: int)
    requires 1 <= w <= 2 && 0 <= x <= 2 && 0 <= y <= 2 && 0 <= z <= 2
    ensures 0 <= Sym3(3 * w + x, 3 * y + z) < 81 && Tab3(Sym3(3 * w + x, 3 * y + z)) == PackQuad(false, w, x, y, z)
  {
  }

  /** Every coefficient vector of codebook 3 has a symbol. */
  lemma Cover3(w: int, x: int, y: int, z: int)
    requires 0 <= w <= 2 && 0 <= x <= 2 && 0 <= y <= 2 && 0 <= z <= 2
    ensures 0 <= Sym3(3 * w + x, 3 * y + z) < 81 && Tab3(Sym3(3 * w + x, 3 * y + z)) == PackQuad(false, w, x, y, z)
  {
    hide *;
    if w <= 0 { Cover3a(w, x, y, z); } else { Cover3b(w, x, y, z); }
  }

  lemma Cover4a(w: int, x: int, y: int, z: int)
    requires 0 <= w <= 0 && 0 <= x <= 2 && 0 <= y <= 2 && 0 <= z <= 2
    ensures 0 <= Sym4(3 * w + x, 3 * y + z) < 81 && Tab4(Sym4(3 * w + x, 3 * y + z)) == PackQuad(false, w, x, y, z)
  {
  }

  lemma Cover4b(w: int, x: int, y: int, z: int)
    requires 1 <= w <= 2 && 0 <= x <= 2 && 0 <= y <= 2 && 0 <= z <= 2
    ensures 0 <= Sym4(3 * w + x, 3 * y + z) < 81 && Tab4(Sym4(3 * w + x, 3 * y + z)) == PackQuad(false, w, x, y, z)
  {
  }

  /** Every coefficient vector of codebook 4 has a symbol. */
  lemma Cover4(w: int, x: int, y: int, z: int)
    requires 0 <= w <= 2 && 0 <= x <= 2 && 0 <= y <= 2 && 0 <= z <= 2
    ensures 0 <= Sym4(3 * w + x, 3 * y + z) < 81 && Tab4(Sym4(3 * w + x, 3 * y + z)) == PackQuad(false, w, x, y, z)
  {
    hide *;
    if w <= 0 { Cover4a(w, x, y, z); } else { Cover4b(w, x, y, z); }
  }

  lemma Cover5a(y: int, z: int)
    requires -4 <= y <= 0 && -4 <= z <= 4
    ensures 0 <= Sym5(y + 4, z + 4) < 81 && Tab5(Sym5(y + 4, z + 4)) == PackPair(true, y, z)
  {
  }

  lemma Cover5b(y: int, z: int)
    requires 1 <= y <= 4 && -4 <= z <= 4
    ensures 0 <= Sym5(y + 4, z + 4) < 81 && Tab5(Sym5(y + 4, z + 4)) == PackPair(true, y, z)
  {
  }

  /** Every coefficient vector of codebook 5 has a symbol. */
  lemma Cover5(y: int, z: int)
    requires -4 <= y <= 4 && -4 <= z <= 4
    ensures 0 <= Sym5(y + 4, z + 4) < 81 && Tab5(Sym5(y + 4, z + 4)) == PackPair(true, y, z)
  {
    hide *;
    if y <= 0 { Cover5a(y, z); } else { Cover5b(y, z); }
  }

  lemma Cover6a(y: int, z: int)
    requires -4 <= y <= 0 && -4 <= z <= 4
    ensures 0 <= Sym6(y + 4, z + 4) < 81 && Tab6(Sym6(y + 4, z + 4)) == PackPair(true, y, z)
  {
  }

  lemma Cover6b(y: int, z: int)
    requires 1 <= y <= 4 && -4 <= z <= 4
    ensures 0 <= Sym6(y + 4, z + 4) < 81 && Tab6(Sym6(y + 4, z + 4)) == PackPair(true, y, z)
  {
  }

  /** Every coefficient vector of codebook 6 has a symbol. */
  lemma Cover6(y: int, z: int)
    requires -4 <= y <= 4 && -4 <= z <= 4
    ensures 0 <= Sym6(y + 4, z + 4) < 81 && Tab6(Sym6(y + 4, z + 4)) == PackPair(true, y, z)
  {
    hide *;
    if y <= 0 { Cover6a(y, z); } else { Cover6b(y, z); }
  }

  lemma Cover7a(y: int, z: int)
    requires 0 <= y <= 3 && 0 <= z <= 7
    ensures 0 <= Sym7(y, z) < 64 && Tab7(Sym7(y, z)) == PackPair(false, y, z)
  {
  }

  lemma Cover7b(y: int, z: int)
    requires 4 <= y <= 7 && 0 <= z <= 7
    ensures 0 <= Sym7(y, z) < 64 && Tab7(Sym7(y, z)) == PackPair(false, y, z)
  {
  }

  /** Every coefficient vector of codebook 7 has a symbol. */
  lemma Cover7(y: int, z: int)
    requires 0 <= y <= 7 && 0 <= z <= 7
    ensures 0 <= Sym7(y, z) < 64 && Tab7(Sym7(y, z)) == PackPair(false, y, z)
  {
    hide *;
    if y <= 3 { Cover7a(y, z); } else { Cover7b(y, z); }
  }

  lemma Cover8a(y: int, z: int)
    requires 0 <= y <= 3 && 0 <= z <= 7
    ensures 0 <= Sym8(y, z) < 64 && Tab8(Sym8(y, z)) == PackPair(false, y, z)
  {
  }

  lemma Cover8b(y: int, z: int)
    requires 4 <= y <= 7 && 0 <= z <= 7
    ensures 0 <= Sym8(y, z) < 64 && Tab8(Sym8(y, z)) == PackPair(false, y, z)
  {
  }

  /** Every coefficient vector of codebook 8 has a symbol. */
  lemma Cover8(y: int, z: int)
    requires 0 <= y <= 7 && 0 <= z <= 7
    ensures 0 <= Sym8(y, z) < 64 && Tab8(Sym8(y, z)) == PackPair(false, y, z)
  {
    hide *;
    if y <= 3 { Cover8a(y, z); } else { Cover8b(y, z); }
  }

  lemma Cover9a(y: int, z: int)
    requires 0 <= y <= 4 && 0 <= z <= 12
    ensures 0 <= Sym9(y, z) < 169 && Tab9(Sym9(y, z)) == PackPair(false, y, z)
  {
  }

  lemma Cover9b(y: int, z: int)
    requires 5 <= y <= 8 && 0 <= z <= 12
    ensures 0 <= Sym9(y, z) < 169 && Tab9(Sym9(y, z)) == PackPair(false, y, z)
  {
  }

  lemma Cover9c(y: int, z: int)
    requires 9 <= y <= 12 && 0 <= z <= 12
    ensures 0 <= Sym9(y, z) < 169 && Tab9(Sym9(y, z)) == PackPair(false, y, z)
  {
  }

  /** Every coefficient vector of codebook 9 has a symbol. */
  lemma Cover9(y: int, z: int)
    requires 0 <= y <= 12 && 0 <= z <= 12
    ensures 0 <= Sym9(y, z) < 169 && Tab9(Sym9(y, z)) == PackPair(false, y, z)
  {
    hide *;
    if y <= 4 { Cover9a(y, z); } else if y <= 8 { Cover9b(y, z); } else { Cover9c(y, z); }
  }

  lemma Cover10a(y: int, z: int)
    requires 0 <= y <= 4 && 0 <= z <= 12
    ensures 0 <= Sym10(y, z) < 169 && Tab10(Sym10(y, z)) == PackPair(false, y, z)
  {
  }

  lemma Cover10b(y: int, z: int)
    requires 5 <= y <= 8 && 0 <= z <= 12
    ensures 0 <= Sym10(y, z) < 169 && Tab10(Sym10(y, z)) == PackPair(false, y, z)
  {
  }

  lemma Cover10c(y: int, z: int)
    requires 9 <= y <= 12 && 0 <= z <= 12
    ensures 0 <= Sym10(y, z) < 169 && Tab10(Sym10(y, z)) == PackPair(false, y, z)
  {
  }

  /** Every coefficient vector of codebook 10 has a symbol. */
  lemma Cover10(y: int, z: int)
    requires 0 <= y <= 12 && 0 <= z <= 12
    ensures 0 <= Sym10(y, z) < 169 && Tab10(Sym10(y, z)) == PackPair(false, y, z)
  {
    hide *;
    if y <= 4 { Cover10a(y, z); } else if y <= 8 { Cover10b(y, z); } else { Cover10c(y, z); }
  }

  lemma Cover11a(y: int, z: int)
    requires 0 <= y <= 2 && 0 <= z <= 16
    ensures 0 <= Sym11(y, z) < 289 && Tab11(Sym11(y, z)) == PackEsc(y, z)
  {
  }

  lemma Cover11b(y: int, z: int)
    requires 3 <= y <= 5 && 0 <= z <= 16
    ensures 0 <= Sym11(y, z) < 289 && Tab11(Sym11(y, z)) == PackEsc(y, z)
  {
  }

  lemma Cover11c(y: int, z: int)
    requires 6 <= y <= 8 && 0 <= z <= 16
    ensures 0 <= Sym11(y, z) < 289 && Tab11(Sym11(y, z)) == PackEsc(y, z)
  {
  }

  lemma Cover11d(y: int, z: int)
    requires 9 <= y <= 11 && 0 <= z <= 16
    ensures 0 <= Sym11(y, z) < 289 && Tab11(Sym11(y, z)) == PackEsc(y, z)
  {
  }

  lemma Cover11e(y: int, z: int)
    requires 12 <= y <= 14 && 0 <= z <= 16
    ensures 0 <= Sym11(y, z) < 289 && Tab11(Sym11(y, z)) == PackEsc(y, z)
  {
  }

  lemma Cover11f(y: int, z: int)
    requires 15 <= y <= 16 && 0 <= z <= 16
    ensures 0 <= Sym11(y, z) < 289 && Tab11(Sym11(y, z)) == PackEsc(y, z)
  {
  }

  /** Every coefficient vector of codebook 11 has a symbol. */
  lemma Cover11(y: int, z: int)
    requires 0 <= y <= 16 && 0 <= z <= 16
    ensures 0 <= Sym11(y, z) < 289 && Tab11(Sym11(y, z)) == PackEsc(y, z)
  {
    hide *;
    if y <= 2 { Cover11a(y, z); } else if y <= 5 { Cover11b(y, z); } else if y <= 8 { Cover11c(y, z); } else if y <= 11 { Cover11d(y, z); } else if y <= 14 { Cover11e(y, z); } else { Cover11f(y, z); }
  }

  /** Every scalefactor difference has a symbol. */
  lemma CoverSf(v: int)
    requires -60 <= v <= 60
    ensures 0 <= SymSf((v + 60) / 11, (v + 60) % 11) < 121 && TabSf(SymSf((v + 60) / 11, (v + 60) % 11)) == v
  {
  }

  lemma InfoValid1To3(cb: nat)
    requires 1 <= cb <= 3
    ensures Cum(SpecInfo(cb).count, 20) == SpecSize(cb) && ValidInfo(SpecInfo(cb), 1241)
  {
    hide Next, Cum, Complete;
    NextOf20(SpecInfo(cb).count);
    CompleteOf20(SpecInfo(cb).count);
  }

  lemma InfoValid4To6(cb: nat)
    requires 4 <= cb <= 6
    ensures Cum(SpecInfo(cb).count, 20) == SpecSize(cb) && ValidInfo(SpecInfo(cb), 1241)
  {
    hide Next, Cum, Complete;
    NextOf20(SpecInfo(cb).count);
    CompleteOf20(SpecInfo(cb).count);
  }

  lemma InfoValid7To9(cb: nat)
    requires 7 <= cb <= 9
    ensures Cum(SpecInfo(cb).count, 20) == SpecSize(cb) && ValidInfo(SpecInfo(cb), 1241)
  {
    hide Next, Cum, Complete;
    NextOf20(SpecInfo(cb).count);
    CompleteOf20(SpecInfo(cb).count);
  }

  lemma InfoValid10To11(cb: nat)
    requires 10 <= cb <= 11
    ensures Cum(SpecInfo(cb).count, 20) == SpecSize(cb) && ValidInfo(SpecInfo(cb), 1241)
  {
    hide Next, Cum, Complete;
    NextOf20(SpecInfo(cb).count);
    CompleteOf20(SpecInfo(cb).count);
  }

  /** Each spectral codebook is a complete code over its symbols. */
  lemma SpecInfoValid(cb: nat)
    requires 1 <= cb <= 11
    ensures Cum(SpecInfo(cb).count, 20) == SpecSize(cb) && ValidInfo(SpecInfo(cb), 1241)
  {
    hide *;
    if cb <= 3 { InfoValid1To3(cb); }
    else if cb <= 6 { InfoValid4To6(cb); }
    else if cb <= 9 { InfoValid7To9(cb); }
    else { InfoValid10To11(cb); }
  }

  lemma ScaleFactInfoValid()
    ensures Cum(ScaleFactInfo().count, 20) == 121 && ValidInfo(ScaleFactInfo(), 121)
  {
    hide Next, Cum, Complete;
    NextOf20(ScaleFactInfo().count);
    CompleteOf20(ScaleFactInfo().count);
  }

}
