/** The example of appendix C.1 of FIPS 197, state by state: what the cipher computes for one
    key and one block, with the round keys that the standard derives from that key. */
module AesExample {
  import opened Gf256
  import opened Aes

  const KEY0: Block := [0x00, 0x01, 0x02, 0x03, 0x04, 0x05, 0x06, 0x07, 0x08, 0x09, 0x0a, 0x0b, 0x0c, 0x0d, 0x0e, 0x0f]
  const KEY1: Block := [0xd6, 0xaa, 0x74, 0xfd, 0xd2, 0xaf, 0x72, 0xfa, 0xda, 0xa6, 0x78, 0xf1, 0xd6, 0xab, 0x76, 0xfe]
  const KEY2: Block := [0xb6, 0x92, 0xcf, 0x0b, 0x64, 0x3d, 0xbd, 0xf1, 0xbe, 0x9b, 0xc5, 0x00, 0x68, 0x30, 0xb3, 0xfe]
  const KEY3: Block := [0xb6, 0xff, 0x74, 0x4e, 0xd2, 0xc2, 0xc9, 0xbf, 0x6c, 0x59, 0x0c, 0xbf, 0x04, 0x69, 0xbf, 0x41]
  const KEY4: Block := [0x47, 0xf7, 0xf7, 0xbc, 0x95, 0x35, 0x3e, 0x03, 0xf9, 0x6c, 0x32, 0xbc, 0xfd, 0x05, 0x8d, 0xfd]
  const KEY5: Block := [0x3c, 0xaa, 0xa3, 0xe8, 0xa9, 0x9f, 0x9d, 0xeb, 0x50, 0xf3, 0xaf, 0x57, 0xad, 0xf6, 0x22, 0xaa]
  const KEY6: Block := [0x5e, 0x39, 0x0f, 0x7d, 0xf7, 0xa6, 0x92, 0x96, 0xa7, 0x55, 0x3d, 0xc1, 0x0a, 0xa3, 0x1f, 0x6b]
  const KEY7: Block := [0x14, 0xf9, 0x70, 0x1a, 0xe3, 0x5f, 0xe2, 0x8c, 0x44, 0x0a, 0xdf, 0x4d, 0x4e, 0xa9, 0xc0, 0x26]
  const KEY8: Block := [0x47, 0x43, 0x87, 0x35, 0xa4, 0x1c, 0x65, 0xb9, 0xe0, 0x16, 0xba, 0xf4, 0xae, 0xbf, 0x7a, 0xd2]
  const KEY9: Block := [0x54, 0x99, 0x32, 0xd1, 0xf0, 0x85, 0x57, 0x68, 0x10, 0x93, 0xed, 0x9c, 0xbe, 0x2c, 0x97, 0x4e]
  const KEY10: Block := [0x13, 0x11, 0x1d, 0x7f, 0xe3, 0x94, 0x4a, 0x17, 0xf3, 0x07, 0xa7, 0x8b, 0x4d, 0x2b, 0x30, 0xc5]

  const KEYS: Keys := [KEY0, KEY1, KEY2, KEY3, KEY4, KEY5, KEY6, KEY7, KEY8, KEY9, KEY10]

  const PLAIN: Block := [0x00, 0x11, 0x22, 0x33, 0x44, 0x55, 0x66, 0x77, 0x88, 0x99, 0xaa, 0xbb, 0xcc, 0xdd, 0xee, 0xff]
  const CIPHER: Block := [0x69, 0xc4, 0xe0, 0xd8, 0x6a, 0x7b, 0x04, 0x30, 0xd8, 0xcd, 0xb7, 0x80, 0x70, 0xb4, 0xc5, 0x5a]

  // The state at the start of each round, substituted, shifted, mixed.

  const START1: Block := [0x00, 0x10, 0x20, 0x30, 0x40, 0x50, 0x60, 0x70, 0x80, 0x90, 0xa0, 0xb0, 0xc0, 0xd0, 0xe0, 0xf0]
  const SUB1: Block := [0x63, 0xca, 0xb7, 0x04, 0x09, 0x53, 0xd0, 0x51, 0xcd, 0x60, 0xe0, 0xe7, 0xba, 0x70, 0xe1, 0x8c]
  const SHIFTED1: Block := [0x63, 0x53, 0xe0, 0x8c, 0x09, 0x60, 0xe1, 0x04, 0xcd, 0x70, 0xb7, 0x51, 0xba, 0xca, 0xd0, 0xe7]
  const MIXED1: Block := [0x5f, 0x72, 0x64, 0x15, 0x57, 0xf5, 0xbc, 0x92, 0xf7, 0xbe, 0x3b, 0x29, 0x1d, 0xb9, 0xf9, 0x1a]
  const START2: Block := [0x89, 0xd8, 0x10, 0xe8, 0x85, 0x5a, 0xce, 0x68, 0x2d, 0x18, 0x43, 0xd8, 0xcb, 0x12, 0x8f, 0xe4]
  const SUB2: Block := [0xa7, 0x61, 0xca, 0x9b, 0x97, 0xbe, 0x8b, 0x45, 0xd8, 0xad, 0x1a, 0x61, 0x1f, 0xc9, 0x73, 0x69]
  const SHIFTED2: Block := [0xa7, 0xbe, 0x1a, 0x69, 0x97, 0xad, 0x73, 0x9b, 0xd8, 0xc9, 0xca, 0x45, 0x1f, 0x61, 0x8b, 0x61]
  const MIXED2: Block := [0xff, 0x87, 0x96, 0x84, 0x31, 0xd8, 0x6a, 0x51, 0x64, 0x51, 0x51, 0xfa, 0x77, 0x3a, 0xd0, 0x09]
  const START3: Block := [0x49, 0x15, 0x59, 0x8f, 0x55, 0xe5, 0xd7, 0xa0, 0xda, 0xca, 0x94, 0xfa, 0x1f, 0x0a, 0x63, 0xf7]
  const SUB3: Block := [0x3b, 0x59, 0xcb, 0x73, 0xfc, 0xd9, 0x0e, 0xe0, 0x57, 0x74, 0x22, 0x2d, 0xc0, 0x67, 0xfb, 0x68]
  const SHIFTED3: Block := [0x3b, 0xd9, 0x22, 0x68, 0xfc, 0x74, 0xfb, 0x73, 0x57, 0x67, 0xcb, 0xe0, 0xc0, 0x59, 0x0e, 0x2d]
  const MIXED3: Block := [0x4c, 0x9c, 0x1e, 0x66, 0xf7, 0x71, 0xf0, 0x76, 0x2c, 0x3f, 0x86, 0x8e, 0x53, 0x4d, 0xf2, 0x56]
  const START4: Block := [0xfa, 0x63, 0x6a, 0x28, 0x25, 0xb3, 0x39, 0xc9, 0x40, 0x66, 0x8a, 0x31, 0x57, 0x24, 0x4d, 0x17]
  const SUB4: Block := [0x2d, 0xfb, 0x02, 0x34, 0x3f, 0x6d, 0x12, 0xdd, 0x09, 0x33, 0x7e, 0xc7, 0x5b, 0x36, 0xe3, 0xf0]
  const SHIFTED4: Block := [0x2d, 0x6d, 0x7e, 0xf0, 0x3f, 0x33, 0xe3, 0x34, 0x09, 0x36, 0x02, 0xdd, 0x5b, 0xfb, 0x12, 0xc7]
  const MIXED4: Block := [0x63, 0x85, 0xb7, 0x9f, 0xfc, 0x53, 0x8d, 0xf9, 0x97, 0xbe, 0x47, 0x8e, 0x75, 0x47, 0xd6, 0x91]
  const START5: Block := [0x24, 0x72, 0x40, 0x23, 0x69, 0x66, 0xb3, 0xfa, 0x6e, 0xd2, 0x75, 0x32, 0x88, 0x42, 0x5b, 0x6c]
  const SUB5: Block := [0x36, 0x40, 0x09, 0x26, 0xf9, 0x33, 0x6d, 0x2d, 0x9f, 0xb5, 0x9d, 0x23, 0xc4, 0x2c, 0x39, 0x50]
  const SHIFTED5: Block := [0x36, 0x33, 0x9d, 0x50, 0xf9, 0xb5, 0x39, 0x26, 0x9f, 0x2c, 0x09, 0x2d, 0xc4, 0x40, 0x6d, 0x23]
  const MIXED5: Block := [0xf4, 0xbc, 0xd4, 0x54, 0x32, 0xe5, 0x54, 0xd0, 0x75, 0xf1, 0xd6, 0xc5, 0x1d, 0xd0, 0x3b, 0x3c]
  const START6: Block := [0xc8, 0x16, 0x77, 0xbc, 0x9b, 0x7a, 0xc9, 0x3b, 0x25, 0x02, 0x79, 0x92, 0xb0, 0x26, 0x19, 0x96]
  const SUB6: Block := [0xe8, 0x47, 0xf5, 0x65, 0x14, 0xda, 0xdd, 0xe2, 0x3f, 0x77, 0xb6, 0x4f, 0xe7, 0xf7, 0xd4, 0x90]
  const SHIFTED6: Block := [0xe8, 0xda, 0xb6, 0x90, 0x14, 0x77, 0xd4, 0x65, 0x3f, 0xf7, 0xf5, 0xe2, 0xe7, 0x47, 0xdd, 0x4f]
  const MIXED6: Block := [0x98, 0x16, 0xee, 0x74, 0x00, 0xf8, 0x7f, 0x55, 0x6b, 0x2c, 0x04, 0x9c, 0x8e, 0x5a, 0xd0, 0x36]
  const START7: Block := [0xc6, 0x2f, 0xe1, 0x09, 0xf7, 0x5e, 0xed, 0xc3, 0xcc, 0x79, 0x39, 0x5d, 0x84, 0xf9, 0xcf, 0x5d]
  const SUB7: Block := [0xb4, 0x15, 0xf8, 0x01, 0x68, 0x58, 0x55, 0x2e, 0x4b, 0xb6, 0x12, 0x4c, 0x5f, 0x99, 0x8a, 0x4c]
  const SHIFTED7: Block := [0xb4, 0x58, 0x12, 0x4c, 0x68, 0xb6, 0x8a, 0x01, 0x4b, 0x99, 0xf8, 0x2e, 0x5f, 0x15, 0x55, 0x4c]
  const MIXED7: Block := [0xc5, 0x7e, 0x1c, 0x15, 0x9a, 0x9b, 0xd2, 0x86, 0xf0, 0x5f, 0x4b, 0xe0, 0x98, 0xc6, 0x34, 0x39]
  const START8: Block := [0xd1, 0x87, 0x6c, 0x0f, 0x79, 0xc4, 0x30, 0x0a, 0xb4, 0x55, 0x94, 0xad, 0xd6, 0x6f, 0xf4, 0x1f]
  const SUB8: Block := [0x3e, 0x17, 0x50, 0x76, 0xb6, 0x1c, 0x04, 0x67, 0x8d, 0xfc, 0x22, 0x95, 0xf6, 0xa8, 0xbf, 0xc0]
  const SHIFTED8: Block := [0x3e, 0x1c, 0x22, 0xc0, 0xb6, 0xfc, 0xbf, 0x76, 0x8d, 0xa8, 0x50, 0x67, 0xf6, 0x17, 0x04, 0x95]
  const MIXED8: Block := [0xba, 0xa0, 0x3d, 0xe7, 0xa1, 0xf9, 0xb5, 0x6e, 0xd5, 0x51, 0x2c, 0xba, 0x5f, 0x41, 0x4d, 0x23]
  const START9: Block := [0xfd, 0xe3, 0xba, 0xd2, 0x05, 0xe5, 0xd0, 0xd7, 0x35, 0x47, 0x96, 0x4e, 0xf1, 0xfe, 0x37, 0xf1]
  const SUB9: Block := [0x54, 0x11, 0xf4, 0xb5, 0x6b, 0xd9, 0x70, 0x0e, 0x96, 0xa0, 0x90, 0x2f, 0xa1, 0xbb, 0x9a, 0xa1]
  const SHIFTED9: Block := [0x54, 0xd9, 0x90, 0xa1, 0x6b, 0xa0, 0x9a, 0xb5, 0x96, 0xbb, 0xf4, 0x0e, 0xa1, 0x11, 0x70, 0x2f]
  const MIXED9: Block := [0xe9, 0xf7, 0x4e, 0xec, 0x02, 0x30, 0x20, 0xf6, 0x1b, 0xf2, 0xcc, 0xf2, 0x35, 0x3c, 0x21, 0xc7]
  const START10: Block := [0xbd, 0x6e, 0x7c, 0x3d, 0xf2, 0xb5, 0x77, 0x9e, 0x0b, 0x61, 0x21, 0x6e, 0x8b, 0x10, 0xb6, 0x89]
  const SUB10: Block := [0x7a, 0x9f, 0x10, 0x27, 0x89, 0xd5, 0xf5, 0x0b, 0x2b, 0xef, 0xfd, 0x9f, 0x3d, 0xca, 0x4e, 0xa7]
  const SHIFTED10: Block := [0x7a, 0xd5, 0xfd, 0xa7, 0x89, 0xef, 0x4e, 0x27, 0x2b, 0xca, 0x10, 0x0b, 0x3d, 0x9f, 0xf5, 0x9f]

  /** An entry of the S-box, given the inverse. */
  lemma Entry(b: bv8, i: bv8, s: bv8)
    requires if b == 0 then i == 0 else var h := Half(0, b, i); Half(h.0, h.1, h.2).0 == 1
    requires Affine(i) == s
    ensures SubByte(b) == s
  {
    hide Mul, Inverse, Affine, Half;
    Halves(b, i);
    if b == 0 {
      InverseIs(0);
    } else {
      InverseUnique(b, i);
    }
  }

  lemma Substituted(s: Block, t: Block)
    requires forall i :: 0 <= i < 16 ==> SubByte(s[i]) == t[i]
    ensures SubBytes(s) == t
  {
    hide SubByte;
  }

  /** Byte by byte: the sums are only looked at one at a time. */
  lemma AddedAt(s: Block, k: Block, t: Block)
    requires Add(s[0], k[0]) == t[0] && Add(s[1], k[1]) == t[1] && Add(s[2], k[2]) == t[2] && Add(s[3], k[3]) == t[3]
    requires Add(s[4], k[4]) == t[4] && Add(s[5], k[5]) == t[5] && Add(s[6], k[6]) == t[6] && Add(s[7], k[7]) == t[7]
    requires Add(s[8], k[8]) == t[8] && Add(s[9], k[9]) == t[9] && Add(s[10], k[10]) == t[10] && Add(s[11], k[11]) == t[11]
    requires Add(s[12], k[12]) == t[12] && Add(s[13], k[13]) == t[13] && Add(s[14], k[14]) == t[14] && Add(s[15], k[15]) == t[15]
    ensures AddKey(s, k) == t
  {
    hide Add;
  }

  /** A column mixed by doublings. */
  lemma Doubled(a: Column)
    ensures Apply(MIX, a) == Column(
      Add(Add(Add(Xtime(a.x0), Add(Xtime(a.x1), a.x1)), a.x2), a.x3),
      Add(Add(Add(a.x0, Xtime(a.x1)), Add(Xtime(a.x2), a.x2)), a.x3),
      Add(Add(Add(a.x0, a.x1), Xtime(a.x2)), Add(Xtime(a.x3), a.x3)),
      Add(Add(Add(Add(Xtime(a.x0), a.x0), a.x1), a.x2), Xtime(a.x3)))
  {
    hide Mul, Add, Xtime, Apply;
    MixedColumn(a);
    Small(a.x0);
    Small(a.x1);
    Small(a.x2);
    Small(a.x3);
  }

  lemma Mixed(s: Block, t: Block)
    requires Apply(MIX, ColumnOf(s, 0)) == ColumnOf(t, 0) && Apply(MIX, ColumnOf(s, 1)) == ColumnOf(t, 1)
    requires Apply(MIX, ColumnOf(s, 2)) == ColumnOf(t, 2) && Apply(MIX, ColumnOf(s, 3)) == ColumnOf(t, 3)
    ensures MixWith(MIX, s) == t
  {
    hide Apply, ColumnOf, Columns;
    WholeBlock(t);
  }

  lemma Sub1a()
    ensures SubByte(0x00) == 0x63 && SubByte(0x10) == 0xca && SubByte(0x20) == 0xb7 && SubByte(0x30) == 0x04
    ensures SubByte(0x40) == 0x09 && SubByte(0x50) == 0x53 && SubByte(0x60) == 0xd0 && SubByte(0x70) == 0x51
  {
    hide SubByte;
    Entry(0x00, 0x00, 0x63);
    Entry(0x10, 0x74, 0xca);
    Entry(0x20, 0x3a, 0xb7);
    Entry(0x30, 0x2c, 0x04);
    Entry(0x40, 0x1d, 0x09);
    Entry(0x50, 0xed, 0x53);
    Entry(0x60, 0x16, 0xd0);
    Entry(0x70, 0x79, 0x51);
  }

  lemma Sub1b()
    ensures SubByte(0x80) == 0xcd && SubByte(0x90) == 0x60 && SubByte(0xa0) == 0xe0 && SubByte(0xb0) == 0xe7
    ensures SubByte(0xc0) == 0xba && SubByte(0xd0) == 0x70 && SubByte(0xe0) == 0xe1 && SubByte(0xf0) == 0x8c
  {
    hide SubByte;
    Entry(0x80, 0x83, 0xcd);
    Entry(0x90, 0xde, 0x60);
    Entry(0xa0, 0xfb, 0xe0);
    Entry(0xb0, 0x0c, 0xe7);
    Entry(0xc0, 0x0b, 0xba);
    Entry(0xd0, 0x7a, 0x70);
    Entry(0xe0, 0xb1, 0xe1);
    Entry(0xf0, 0x5b, 0x8c);
  }

  lemma Sub1()
    ensures SubBytes(START1) == SUB1
  {
    hide SubByte, SubBytes;
    Sub1a();
    Sub1b();
    Substituted(START1, SUB1);
  }

  lemma Sub2a()
    ensures SubByte(0x89) == 0xa7 && SubByte(0xd8) == 0x61 && SubByte(0x10) == 0xca && SubByte(0xe8) == 0x9b
    ensures SubByte(0x85) == 0x97 && SubByte(0x5a) == 0xbe && SubByte(0xce) == 0x8b && SubByte(0x68) == 0x45
  {
    hide SubByte;
    Entry(0x89, 0x9e, 0xa7);
    Entry(0xd8, 0x94, 0x61);
    Entry(0x10, 0x74, 0xca);
    Entry(0xe8, 0x08, 0x9b);
    Entry(0x85, 0x73, 0x97);
    Entry(0x5a, 0x22, 0xbe);
    Entry(0xce, 0xac, 0x8b);
    Entry(0x68, 0xf4, 0x45);
  }

  lemma Sub2b()
    ensures SubByte(0x2d) == 0xd8 && SubByte(0x18) == 0xad && SubByte(0x43) == 0x1a && SubByte(0xd8) == 0x61
    ensures SubByte(0xcb) == 0x1f && SubByte(0x12) == 0xc9 && SubByte(0x8f) == 0x73 && SubByte(0xe4) == 0x69
  {
    hide SubByte;
    Entry(0x2d, 0x44, 0xd8);
    Entry(0x18, 0x58, 0xad);
    Entry(0x43, 0x67, 0x1a);
    Entry(0xd8, 0x94, 0x61);
    Entry(0xcb, 0x04, 0x1f);
    Entry(0x12, 0xaa, 0xc9);
    Entry(0x8f, 0xa4, 0x73);
    Entry(0xe4, 0xc6, 0x69);
  }

  lemma Sub2()
    ensures SubBytes(START2) == SUB2
  {
    hide SubByte, SubBytes;
    Sub2a();
    Sub2b();
    Substituted(START2, SUB2);
  }

  lemma Sub3a()
    ensures SubByte(0x49) == 0x3b && SubByte(0x15) == 0x59 && SubByte(0x59) == 0xcb && SubByte(0x8f) == 0x73
    ensures SubByte(0x55) == 0xfc && SubByte(0xe5) == 0xd9 && SubByte(0xd7) == 0x0e && SubByte(0xa0) == 0xe0
  {
    hide SubByte;
    Entry(0x49, 0x64, 0x3b);
    Entry(0x15, 0x2b, 0x59);
    Entry(0x59, 0x3e, 0xcb);
    Entry(0x8f, 0xa4, 0x73);
    Entry(0x55, 0x24, 0xfc);
    Entry(0xe5, 0x0e, 0xd9);
    Entry(0xd7, 0xea, 0x0e);
    Entry(0xa0, 0xfb, 0xe0);
  }

  lemma Sub3b()
    ensures SubByte(0xda) == 0x57 && SubByte(0xca) == 0x74 && SubByte(0x94) == 0x22 && SubByte(0xfa) == 0x2d
    ensures SubByte(0x1f) == 0xc0 && SubByte(0x0a) == 0x67 && SubByte(0x63) == 0xfb && SubByte(0xf7) == 0x68
  {
    hide SubByte;
    Entry(0xda, 0xc4, 0x57);
    Entry(0xca, 0x53, 0x74);
    Entry(0x94, 0xd8, 0x22);
    Entry(0xfa, 0x7d, 0x2d);
    Entry(0x1f, 0xb2, 0xc0);
    Entry(0x0a, 0x29, 0x67);
    Entry(0x63, 0xd3, 0xfb);
    Entry(0xf7, 0x8c, 0x68);
  }

  lemma Sub3()
    ensures SubBytes(START3) == SUB3
  {
    hide SubByte, SubBytes;
    Sub3a();
    Sub3b();
    Substituted(START3, SUB3);
  }

  lemma Sub4a()
    ensures SubByte(0xfa) == 0x2d && SubByte(0x63) == 0xfb && SubByte(0x6a) == 0x02 && SubByte(0x28) == 0x34
    ensures SubByte(0x25) == 0x3f && SubByte(0xb3) == 0x6d && SubByte(0x39) == 0x12 && SubByte(0xc9) == 0xdd
  {
    hide SubByte;
    Entry(0xfa, 0x7d, 0x2d);
    Entry(0x63, 0xd3, 0xfb);
    Entry(0x6a, 0x91, 0x02);
    Entry(0x28, 0xc1, 0x34);
    Entry(0x25, 0x4d, 0x3f);
    Entry(0xb3, 0xef, 0x6d);
    Entry(0x39, 0x35, 0x12);
    Entry(0xc9, 0x27, 0xdd);
  }

  lemma Sub4b()
    ensures SubByte(0x40) == 0x09 && SubByte(0x66) == 0x33 && SubByte(0x8a) == 0x7e && SubByte(0x31) == 0xc7
    ensures SubByte(0x57) == 0x5b && SubByte(0x24) == 0x36 && SubByte(0x4d) == 0xe3 && SubByte(0x17) == 0xf0
  {
    hide SubByte;
    Entry(0x40, 0x1d, 0x09);
    Entry(0x66, 0x36, 0x33);
    Entry(0x8a, 0x95, 0x7e);
    Entry(0x31, 0x45, 0xc7);
    Entry(0x57, 0xbf, 0x5b);
    Entry(0x24, 0x55, 0x36);
    Entry(0x4d, 0x25, 0xe3);
    Entry(0x17, 0x5f, 0xf0);
  }

  lemma Sub4()
    ensures SubBytes(START4) == SUB4
  {
    hide SubByte, SubBytes;
    Sub4a();
    Sub4b();
    Substituted(START4, SUB4);
  }

  lemma Sub5a()
    ensures SubByte(0x24) == 0x36 && SubByte(0x72) == 0x40 && SubByte(0x40) == 0x09 && SubByte(0x23) == 0x26
    ensures SubByte(0x69) == 0xf9 && SubByte(0x66) == 0x33 && SubByte(0xb3) == 0x6d && SubByte(0xfa) == 0x2d
  {
    hide SubByte;
    Entry(0x24, 0x55, 0x36);
    Entry(0x72, 0x97, 0x40);
    Entry(0x40, 0x1d, 0x09);
    Entry(0x23, 0xf1, 0x26);
    Entry(0x69, 0x47, 0xf9);
    Entry(0x66, 0x36, 0x33);
    Entry(0xb3, 0xef, 0x6d);
    Entry(0xfa, 0x7d, 0x2d);
  }

  lemma Sub5b()
    ensures SubByte(0x6e) == 0x9f && SubByte(0xd2) == 0xb5 && SubByte(0x75) == 0x9d && SubByte(0x32) == 0x23
    ensures SubByte(0x88) == 0xc4 && SubByte(0x42) == 0x2c && SubByte(0x5b) == 0x39 && SubByte(0x6c) == 0x50
  {
    hide SubByte;
    Entry(0x6e, 0x21, 0x9f);
    Entry(0xd2, 0xae, 0xb5);
    Entry(0x75, 0xb5, 0x9d);
    Entry(0x32, 0x92, 0x23);
    Entry(0x88, 0x9b, 0xc4);
    Entry(0x42, 0x37, 0x2c);
    Entry(0x5b, 0xf0, 0x39);
    Entry(0x6c, 0x33, 0x50);
  }

  lemma Sub5()
    ensures SubBytes(START5) == SUB5
  {
    hide SubByte, SubBytes;
    Sub5a();
    Sub5b();
    Substituted(START5, SUB5);
  }

  lemma Sub6a()
    ensures SubByte(0xc8) == 0xe8 && SubByte(0x16) == 0x47 && SubByte(0x77) == 0xf5 && SubByte(0xbc) == 0x65
    ensures SubByte(0x9b) == 0x14 && SubByte(0x7a) == 0xda && SubByte(0xc9) == 0xdd && SubByte(0x3b) == 0xe2
  {
    hide SubByte;
    Entry(0xc8, 0xa9, 0xe8);
    Entry(0x16, 0x60, 0x47);
    Entry(0x77, 0x3c, 0xf5);
    Entry(0xbc, 0xbd, 0x65);
    Entry(0x9b, 0x88, 0x14);
    Entry(0x7a, 0xd0, 0xda);
    Entry(0xc9, 0x27, 0xdd);
    Entry(0x3b, 0x6f, 0xe2);
  }

  lemma Sub6b()
    ensures SubByte(0x25) == 0x3f && SubByte(0x02) == 0x77 && SubByte(0x79) == 0xb6 && SubByte(0x92) == 0x4f
    ensures SubByte(0xb0) == 0xe7 && SubByte(0x26) == 0xf7 && SubByte(0x19) == 0xd4 && SubByte(0x96) == 0x90
  {
    hide SubByte;
    Entry(0x25, 0x4d, 0x3f);
    Entry(0x02, 0x8d, 0x77);
    Entry(0x79, 0x70, 0xb6);
    Entry(0x92, 0x32, 0x4f);
    Entry(0xb0, 0x0c, 0xe7);
    Entry(0x26, 0xa8, 0xf7);
    Entry(0x19, 0x3f, 0xd4);
    Entry(0x96, 0x84, 0x90);
  }

  lemma Sub6()
    ensures SubBytes(START6) == SUB6
  {
    hide SubByte, SubBytes;
    Sub6a();
    Sub6b();
    Substituted(START6, SUB6);
  }

  lemma Sub7a()
    ensures SubByte(0xc6) == 0xb4 && SubByte(0x2f) == 0x15 && SubByte(0xe1) == 0xf8 && SubByte(0x09) == 0x01
    ensures SubByte(0xf7) == 0x68 && SubByte(0x5e) == 0x58 && SubByte(0xed) == 0x55 && SubByte(0xc3) == 0x2e
  {
    hide SubByte;
    Entry(0xc6, 0xe4, 0xb4);
    Entry(0x2f, 0xc2, 0x15);
    Entry(0xe1, 0x0d, 0xf8);
    Entry(0x09, 0x4f, 0x01);
    Entry(0xf7, 0x8c, 0x68);
    Entry(0x5e, 0x61, 0x58);
    Entry(0xed, 0x50, 0x55);
    Entry(0xc3, 0xa3, 0x2e);
  }

  lemma Sub7b()
    ensures SubByte(0xcc) == 0x4b && SubByte(0x79) == 0xb6 && SubByte(0x39) == 0x12 && SubByte(0x5d) == 0x4c
    ensures SubByte(0x84) == 0x5f && SubByte(0xf9) == 0x99 && SubByte(0xcf) == 0x8a
  {
    hide SubByte;
    Entry(0xcc, 0x1b, 0x4b);
    Entry(0x79, 0x70, 0xb6);
    Entry(0x39, 0x35, 0x12);
    Entry(0x5d, 0xec, 0x4c);
    Entry(0x84, 0x96, 0x5f);
    Entry(0xf9, 0x9c, 0x99);
    Entry(0xcf, 0xe6, 0x8a);
  }

  lemma Sub7()
    ensures SubBytes(START7) == SUB7
  {
    hide SubByte, SubBytes;
    Sub7a();
    Sub7b();
    Substituted(START7, SUB7);
  }

  lemma Sub8a()
    ensures SubByte(0xd1) == 0x3e && SubByte(0x87) == 0x17 && SubByte(0x6c) == 0x50 && SubByte(0x0f) == 0x76
    ensures SubByte(0x79) == 0xb6 && SubByte(0xc4) == 0x1c && SubByte(0x30) == 0x04 && SubByte(0x0a) == 0x67
  {
    hide SubByte;
    Entry(0xd1, 0x07, 0x3e);
    Entry(0x87, 0x56, 0x17);
    Entry(0x6c, 0x33, 0x50);
    Entry(0x0f, 0xc7, 0x76);
    Entry(0x79, 0x70, 0xb6);
    Entry(0xc4, 0xda, 0x1c);
    Entry(0x30, 0x2c, 0x04);
    Entry(0x0a, 0x29, 0x67);
  }

  lemma Sub8b()
    ensures SubByte(0xb4) == 0x8d && SubByte(0x55) == 0xfc && SubByte(0x94) == 0x22 && SubByte(0xad) == 0x95
    ensures SubByte(0xd6) == 0xf6 && SubByte(0x6f) == 0xa8 && SubByte(0xf4) == 0xbf && SubByte(0x1f) == 0xc0
  {
    hide SubByte;
    Entry(0xb4, 0x11, 0x8d);
    Entry(0x55, 0x24, 0xfc);
    Entry(0x94, 0xd8, 0x22);
    Entry(0xad, 0xe7, 0x95);
    Entry(0xd6, 0xe2, 0xf6);
    Entry(0x6f, 0x3b, 0xa8);
    Entry(0xf4, 0x68, 0xbf);
    Entry(0x1f, 0xb2, 0xc0);
  }

  lemma Sub8()
    ensures SubBytes(START8) == SUB8
  {
    hide SubByte, SubBytes;
    Sub8a();
    Sub8b();
    Substituted(START8, SUB8);
  }

  lemma Sub9a()
    ensures SubByte(0xfd) == 0x54 && SubByte(0xe3) == 0x11 && SubByte(0xba) == 0xf4 && SubByte(0xd2) == 0xb5
    ensures SubByte(0x05) == 0x6b && SubByte(0xe5) == 0xd9 && SubByte(0xd0) == 0x70 && SubByte(0xd7) == 0x0e
  {
    hide SubByte;
    Entry(0xfd, 0x1a, 0x54);
    Entry(0xe3, 0xeb, 0x11);
    Entry(0xba, 0x76, 0xf4);
    Entry(0xd2, 0xae, 0xb5);
    Entry(0x05, 0x52, 0x6b);
    Entry(0xe5, 0x0e, 0xd9);
    Entry(0xd0, 0x7a, 0x70);
    Entry(0xd7, 0xea, 0x0e);
  }

  lemma Sub9b()
    ensures SubByte(0x35) == 0x96 && SubByte(0x47) == 0xa0 && SubByte(0x96) == 0x90 && SubByte(0x4e) == 0x2f
    ensures SubByte(0xf1) == 0xa1 && SubByte(0xfe) == 0xbb && SubByte(0x37) == 0x9a
  {
    hide SubByte;
    Entry(0x35, 0x39, 0x96);
    Entry(0x47, 0x69, 0xa0);
    Entry(0x96, 0x84, 0x90);
    Entry(0x4e, 0xe9, 0x2f);
    Entry(0xf1, 0x23, 0xa1);
    Entry(0xfe, 0x41, 0xbb);
    Entry(0x37, 0x42, 0x9a);
  }

  lemma Sub9()
    ensures SubBytes(START9) == SUB9
  {
    hide SubByte, SubBytes;
    Sub9a();
    Sub9b();
    Substituted(START9, SUB9);
  }

  lemma Sub10a()
    ensures SubByte(0xbd) == 0x7a && SubByte(0x6e) == 0x9f && SubByte(0x7c) == 0x10 && SubByte(0x3d) == 0x27
    ensures SubByte(0xf2) == 0x89 && SubByte(0xb5) == 0xd5 && SubByte(0x77) == 0xf5 && SubByte(0x9e) == 0x0b
  {
    hide SubByte;
    Entry(0xbd, 0xbc, 0x7a);
    Entry(0x6e, 0x21, 0x9f);
    Entry(0x7c, 0xa1, 0x10);
    Entry(0x3d, 0xbb, 0x27);
    Entry(0xf2, 0x38, 0x89);
    Entry(0xb5, 0x75, 0xd5);
    Entry(0x77, 0x3c, 0xf5);
    Entry(0x9e, 0x89, 0x0b);
  }

  lemma Sub10b()
    ensures SubByte(0x0b) == 0x2b && SubByte(0x61) == 0xef && SubByte(0x21) == 0xfd && SubByte(0x6e) == 0x9f
    ensures SubByte(0x8b) == 0x3d && SubByte(0x10) == 0xca && SubByte(0xb6) == 0x4e && SubByte(0x89) == 0xa7
  {
    hide SubByte;
    Entry(0x0b, 0xc0, 0x2b);
    Entry(0x61, 0x5e, 0xef);
    Entry(0x21, 0x6e, 0xfd);
    Entry(0x6e, 0x21, 0x9f);
    Entry(0x8b, 0xd9, 0x3d);
    Entry(0x10, 0x74, 0xca);
    Entry(0xb6, 0x78, 0x4e);
    Entry(0x89, 0x9e, 0xa7);
  }

  lemma Sub10()
    ensures SubBytes(START10) == SUB10
  {
    hide SubByte, SubBytes;
    Sub10a();
    Sub10b();
    Substituted(START10, SUB10);
  }

  lemma Round1()
    ensures Encrypting(KEYS, PLAIN, 0) == START1 ==> Encrypting(KEYS, PLAIN, 1) == START2
  {
    hide SubByte, SubBytes, ShiftRows, Apply;
    Sub1();
    Shifted(SUB1, SHIFTED1);
    Mix1();
    hide MixWith;
    Key1();
  }

  lemma Mix1()
    ensures MixWith(MIX, SHIFTED1) == MIXED1
  {
    hide Apply, MixWith;
    Doubled(ColumnOf(SHIFTED1, 0));
    Doubled(ColumnOf(SHIFTED1, 1));
    Doubled(ColumnOf(SHIFTED1, 2));
    Doubled(ColumnOf(SHIFTED1, 3));
    Mixed(SHIFTED1, MIXED1);
  }

  lemma Round2()
    ensures Encrypting(KEYS, PLAIN, 1) == START2 ==> Encrypting(KEYS, PLAIN, 2) == START3
  {
    hide SubByte, SubBytes, ShiftRows, Apply;
    Sub2();
    Shifted(SUB2, SHIFTED2);
    Mix2();
    hide MixWith;
    Key2();
  }

  lemma Mix2()
    ensures MixWith(MIX, SHIFTED2) == MIXED2
  {
    hide Apply, MixWith;
    Doubled(ColumnOf(SHIFTED2, 0));
    Doubled(ColumnOf(SHIFTED2, 1));
    Doubled(ColumnOf(SHIFTED2, 2));
    Doubled(ColumnOf(SHIFTED2, 3));
    Mixed(SHIFTED2, MIXED2);
  }

  lemma Round3()
    ensures Encrypting(KEYS, PLAIN, 2) == START3 ==> Encrypting(KEYS, PLAIN, 3) == START4
  {
    hide SubByte, SubBytes, ShiftRows, Apply;
    Sub3();
    Shifted(SUB3, SHIFTED3);
    Mix3();
    hide MixWith;
    Key3();
  }

  lemma Mix3()
    ensures MixWith(MIX, SHIFTED3) == MIXED3
  {
    hide Apply, MixWith;
    Doubled(ColumnOf(SHIFTED3, 0));
    Doubled(ColumnOf(SHIFTED3, 1));
    Doubled(ColumnOf(SHIFTED3, 2));
    Doubled(ColumnOf(SHIFTED3, 3));
    Mixed(SHIFTED3, MIXED3);
  }

  lemma Round4()
    ensures Encrypting(KEYS, PLAIN, 3) == START4 ==> Encrypting(KEYS, PLAIN, 4) == START5
  {
    hide SubByte, SubBytes, ShiftRows, Apply;
    Sub4();
    Shifted(SUB4, SHIFTED4);
    Mix4();
    hide MixWith;
    Key4();
  }

  lemma Mix4()
    ensures MixWith(MIX, SHIFTED4) == MIXED4
  {
    hide Apply, MixWith;
    Doubled(ColumnOf(SHIFTED4, 0));
    Doubled(ColumnOf(SHIFTED4, 1));
    Doubled(ColumnOf(SHIFTED4, 2));
    Doubled(ColumnOf(SHIFTED4, 3));
    Mixed(SHIFTED4, MIXED4);
  }

  lemma Round5()
    ensures Encrypting(KEYS, PLAIN, 4) == START5 ==> Encrypting(KEYS, PLAIN, 5) == START6
  {
    hide SubByte, SubBytes, ShiftRows, Apply;
    Sub5();
    Shifted(SUB5, SHIFTED5);
    Mix5();
    hide MixWith;
    Key5();
  }

  lemma Mix5()
    ensures MixWith(MIX, SHIFTED5) == MIXED5
  {
    hide Apply, MixWith;
    Doubled(ColumnOf(SHIFTED5, 0));
    Doubled(ColumnOf(SHIFTED5, 1));
    Doubled(ColumnOf(SHIFTED5, 2));
    Doubled(ColumnOf(SHIFTED5, 3));
    Mixed(SHIFTED5, MIXED5);
  }

  lemma Round6()
    ensures Encrypting(KEYS, PLAIN, 5) == START6 ==> Encrypting(KEYS, PLAIN, 6) == START7
  {
    hide SubByte, SubBytes, ShiftRows, Apply;
    Sub6();
    Shifted(SUB6, SHIFTED6);
    Mix6();
    hide MixWith;
    Key6();
  }

  lemma Mix6()
    ensures MixWith(MIX, SHIFTED6) == MIXED6
  {
    hide Apply, MixWith;
    Doubled(ColumnOf(SHIFTED6, 0));
    Doubled(ColumnOf(SHIFTED6, 1));
    Doubled(ColumnOf(SHIFTED6, 2));
    Doubled(ColumnOf(SHIFTED6, 3));
    Mixed(SHIFTED6, MIXED6);
  }

  lemma Round7()
    ensures Encrypting(KEYS, PLAIN, 6) == START7 ==> Encrypting(KEYS, PLAIN, 7) == START8
  {
    hide SubByte, SubBytes, ShiftRows, Apply;
    Sub7();
    Shifted(SUB7, SHIFTED7);
    Mix7();
    hide MixWith;
    Key7();
  }

  lemma Mix7()
    ensures MixWith(MIX, SHIFTED7) == MIXED7
  {
    hide Apply, MixWith;
    Doubled(ColumnOf(SHIFTED7, 0));
    Doubled(ColumnOf(SHIFTED7, 1));
    Doubled(ColumnOf(SHIFTED7, 2));
    Doubled(ColumnOf(SHIFTED7, 3));
    Mixed(SHIFTED7, MIXED7);
  }

  lemma Round8()
    ensures Encrypting(KEYS, PLAIN, 7) == START8 ==> Encrypting(KEYS, PLAIN, 8) == START9
  {
    hide SubByte, SubBytes, ShiftRows, Apply;
    Sub8();
    Shifted(SUB8, SHIFTED8);
    Mix8();
    hide MixWith;
    Key8();
  }

  lemma Mix8()
    ensures MixWith(MIX, SHIFTED8) == MIXED8
  {
    hide Apply, MixWith;
    Doubled(ColumnOf(SHIFTED8, 0));
    Doubled(ColumnOf(SHIFTED8, 1));
    Doubled(ColumnOf(SHIFTED8, 2));
    Doubled(ColumnOf(SHIFTED8, 3));
    Mixed(SHIFTED8, MIXED8);
  }

  lemma Round9()
    ensures Encrypting(KEYS, PLAIN, 8) == START9 ==> Encrypting(KEYS, PLAIN, 9) == START10
  {
    hide SubByte, SubBytes, ShiftRows, Apply;
    Sub9();
    Shifted(SUB9, SHIFTED9);
    Mix9();
    hide MixWith;
    Key9();
  }

  lemma Mix9()
    ensures MixWith(MIX, SHIFTED9) == MIXED9
  {
    hide Apply, MixWith;
    Doubled(ColumnOf(SHIFTED9, 0));
    Doubled(ColumnOf(SHIFTED9, 1));
    Doubled(ColumnOf(SHIFTED9, 2));
    Doubled(ColumnOf(SHIFTED9, 3));
    Mixed(SHIFTED9, MIXED9);
  }

  lemma Key0()
    ensures AddKey(PLAIN, KEY0) == START1
  {
    hide AddKey;
    AddedAt(PLAIN, KEY0, START1);
  }

  lemma Key1()
    ensures AddKey(MIXED1, KEY1) == START2
  {
    hide AddKey;
    AddedAt(MIXED1, KEY1, START2);
  }

  lemma Key2()
    ensures AddKey(MIXED2, KEY2) == START3
  {
    hide AddKey;
    AddedAt(MIXED2, KEY2, START3);
  }

  lemma Key3()
    ensures AddKey(MIXED3, KEY3) == START4
  {
    hide AddKey;
    AddedAt(MIXED3, KEY3, START4);
  }

  lemma Key4()
    ensures AddKey(MIXED4, KEY4) == START5
  {
    hide AddKey;
    AddedAt(MIXED4, KEY4, START5);
  }

  lemma Key5()
    ensures AddKey(MIXED5, KEY5) == START6
  {
    hide AddKey;
    AddedAt(MIXED5, KEY5, START6);
  }

  lemma Key6()
    ensures AddKey(MIXED6, KEY6) == START7
  {
    hide AddKey;
    AddedAt(MIXED6, KEY6, START7);
  }

  lemma Key7()
    ensures AddKey(MIXED7, KEY7) == START8
  {
    hide AddKey;
    AddedAt(MIXED7, KEY7, START8);
  }

  lemma Key8()
    ensures AddKey(MIXED8, KEY8) == START9
  {
    hide AddKey;
    AddedAt(MIXED8, KEY8, START9);
  }

  lemma Key9()
    ensures AddKey(MIXED9, KEY9) == START10
  {
    hide AddKey;
    AddedAt(MIXED9, KEY9, START10);
  }

  lemma Key10()
    ensures AddKey(SHIFTED10, KEY10) == CIPHER
  {
    hide AddKey;
    AddedAt(SHIFTED10, KEY10, CIPHER);
  }

  /** The ciphertext of the standard, and back. */
  lemma Example()
    ensures Encrypt(KEYS, PLAIN) == CIPHER && Decrypt(KEYS, CIPHER) == PLAIN
  {
    hide SubByte, SubBytes, ShiftRows, MixWith, Encrypting;
    FirstState();
    Round1();
    Round2();
    Round3();
    Round4();
    Round5();
    Round6();
    Round7();
    Round8();
    Round9();
    Sub10();
    Shifted(SUB10, SHIFTED10);
    Key10();
    CipherInverse(KEYS, PLAIN);
  }

  lemma FirstState()
    ensures Encrypting(KEYS, PLAIN, 0) == START1
  {
    hide SubBytes, ShiftRows, MixWith, AddKey;
    Key0();
  }
}
