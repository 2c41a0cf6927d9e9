/** The digests of "abc", as the standards give them: appendix A of FIPS 180-1 and appendix A.5 of RFC 1321. */
module KnownDigests {
  import opened ByteImage
  import opened Digest
  import Md5
  import Sha1

  const ABC: seq<Byte> := [0x61, 0x62, 0x63]

  // The padded message

  /** 24 bits, in eight bytes. */
  lemma LengthAbc()
    ensures LittleEndian(24, 8) == [24, 0, 0, 0, 0, 0, 0, 0] && BigEndian(24, 8) == [0, 0, 0, 0, 0, 0, 0, 24]
  {
    assert LittleEndian(0, 4) == [0, 0, 0, 0] && BigEndian(0, 4) == [0, 0, 0, 0];
    assert LittleEndian(0, 7) == [0, 0, 0, 0, 0, 0, 0] && BigEndian(0, 7) == [0, 0, 0, 0, 0, 0, 0];
  }

  /** The message, a one bit and zeros, and its length. */
  lemma PaddedAbc(order: Order)
    ensures Padded(ABC, order)
            == [0x61, 0x62, 0x63, 0x80] + seq(52, _ => 0)
               + if order.Lsb? then [24, 0, 0, 0, 0, 0, 0, 0] else [0, 0, 0, 0, 0, 0, 0, 24]
  {
    LengthAbc();
    assert PadLength(3) == 53;
    assert Filler(53) == [0x80] + seq(52, _ => 0);
    assert ABC + ([0x80] + seq(52, _ => 0)) == [0x61, 0x62, 0x63, 0x80] + seq(52, _ => 0);
  }

  /** A message of one block. */
  lemma OneBlock(h: State, block: seq<Byte>)
    requires |block| == 64
    ensures Compressed(h, block) == CompressBytes(h, block)
  {
    hide CompressBytes;
    assert block[..64] == block;
    CompressedStep(CompressBytes(h, block), block[64..]);
  }

  // SHA-1

  /** The words of the schedule from t on. */
  ghost predicate Sha1Words(b: seq<bv32>, t: nat, w0: bv32, w1: bv32, w2: bv32, w3: bv32, w4: bv32, w5: bv32,
                           w6: bv32, w7: bv32, w8: bv32, w9: bv32, w10: bv32, w11: bv32, w12: bv32, w13: bv32,
                           w14: bv32, w15: bv32)
    requires |b| == 16
  {
    && Sha1.W(b, t) == w0 && Sha1.W(b, t + 1) == w1 && Sha1.W(b, t + 2) == w2 && Sha1.W(b, t + 3) == w3
    && Sha1.W(b, t + 4) == w4 && Sha1.W(b, t + 5) == w5 && Sha1.W(b, t + 6) == w6 && Sha1.W(b, t + 7) == w7
    && Sha1.W(b, t + 8) == w8 && Sha1.W(b, t + 9) == w9 && Sha1.W(b, t + 10) == w10 && Sha1.W(b, t + 11) == w11
    && Sha1.W(b, t + 12) == w12 && Sha1.W(b, t + 13) == w13 && Sha1.W(b, t + 14) == w14 && Sha1.W(b, t + 15) == w15
  }

  lemma Sha1Word(b: seq<bv32>, t: nat, w: bv32)
    requires |b| == 16 && t >= 16
    requires w == Sha1.Rol1(Sha1.Xor4(Sha1.W(b, t - 3), Sha1.W(b, t - 8), Sha1.W(b, t - 14), Sha1.W(b, t - 16)))
    ensures Sha1.W(b, t) == w
  {
  }

  lemma Sha1Step(h: Sha1.Regs, b: seq<bv32>, t: nat, r: Sha1.Regs, a: bv32) returns (next: Sha1.Regs)
    requires |b| == 16 && Sha1.Steps(h, b, t) == r && a == Sha1.Temp(r, t, Sha1.W(b, t))
    ensures Sha1.Steps(h, b, t + 1) == next == Sha1.Regs(a, r.a, Sha1.Rol30(r.b), r.c, r.d)
  {
    next := Sha1.Steps(h, b, t + 1);
  }

  lemma Sha1Schedule1(b: seq<bv32>)
    requires |b| == 16 && Sha1Words(b, 0, 0x61626380, 0x00000000, 0x00000000, 0x00000000, 0x00000000, 0x00000000,
                  0x00000000, 0x00000000, 0x00000000, 0x00000000, 0x00000000, 0x00000000, 0x00000000, 0x00000000,
                  0x00000000, 0x00000018)
    ensures Sha1Words(b, 16, 0xc2c4c700, 0x00000000, 0x00000030, 0x85898e01, 0x00000000, 0x00000060, 0x0b131c03,
                     0x00000030, 0x85898ec1, 0x16263806, 0x00000000, 0x00000180, 0x2c4c700c, 0x000000f0, 0x93afb507,
                     0x5898e048)
  {
    hide Sha1.W;
    Sha1Word(b, 16, 0xc2c4c700);
    Sha1Word(b, 17, 0x00000000);
    Sha1Word(b, 18, 0x00000030);
    Sha1Word(b, 19, 0x85898e01);
    Sha1Word(b, 20, 0x00000000);
    Sha1Word(b, 21, 0x00000060);
    Sha1Word(b, 22, 0x0b131c03);
    Sha1Word(b, 23, 0x00000030);
    Sha1Word(b, 24, 0x85898ec1);
    Sha1Word(b, 25, 0x16263806);
    Sha1Word(b, 26, 0x00000000);
    Sha1Word(b, 27, 0x00000180);
    Sha1Word(b, 28, 0x2c4c700c);
    Sha1Word(b, 29, 0x000000f0);
    Sha1Word(b, 30, 0x93afb507);
    Sha1Word(b, 31, 0x5898e048);
  }

  lemma Sha1Schedule2(b: seq<bv32>)
    requires |b| == 16 && Sha1Words(b, 16, 0xc2c4c700, 0x00000000, 0x00000030, 0x85898e01, 0x00000000, 0x00000060,
                  0x0b131c03, 0x00000030, 0x85898ec1, 0x16263806, 0x00000000, 0x00000180, 0x2c4c700c, 0x000000f0,
                  0x93afb507, 0x5898e048)
    ensures Sha1Words(b, 32, 0x8e9a9202, 0x00000600, 0xb131c0f0, 0x16263bc6, 0x4ebed41e, 0x626380a1, 0x16263806,
                     0x000018c0, 0xd2e138c4, 0x00000f00, 0x3afb5079, 0x898e04e5, 0xe2ba3c2b, 0x000060c0, 0x053a37cd,
                     0x74458547)
  {
    hide Sha1.W;
    Sha1Word(b, 32, 0x8e9a9202);
    Sha1Word(b, 33, 0x00000600);
    Sha1Word(b, 34, 0xb131c0f0);
    Sha1Word(b, 35, 0x16263bc6);
    Sha1Word(b, 36, 0x4ebed41e);
    Sha1Word(b, 37, 0x626380a1);
    Sha1Word(b, 38, 0x16263806);
    Sha1Word(b, 39, 0x000018c0);
    Sha1Word(b, 40, 0xd2e138c4);
    Sha1Word(b, 41, 0x00000f00);
    Sha1Word(b, 42, 0x3afb5079);
    Sha1Word(b, 43, 0x898e04e5);
    Sha1Word(b, 44, 0xe2ba3c2b);
    Sha1Word(b, 45, 0x000060c0);
    Sha1Word(b, 46, 0x053a37cd);
    Sha1Word(b, 47, 0x74458547);
  }

  lemma Sha1Schedule3(b: seq<bv32>)
    requires |b| == 16 && Sha1Words(b, 32, 0x8e9a9202, 0x00000600, 0xb131c0f0, 0x16263bc6, 0x4ebed41e, 0x626380a1,
                  0x16263806, 0x000018c0, 0xd2e138c4, 0x00000f00, 0x3afb5079, 0x898e04e5, 0xe2ba3c2b, 0x000060c0,
                  0x053a37cd, 0x74458547)
    ensures Sha1Words(b, 48, 0xda9415ed, 0x26380a16, 0x626383a1, 0x4ebf54de, 0x3835b44b, 0x0000f600, 0x1e84c7a3,
                     0x98e04d98, 0x651d16a0, 0x62658ca1, 0x458544d6, 0x44584cb7, 0x7ba06619, 0x6380aea2, 0x0ae55269,
                     0x627b49a1)
  {
    hide Sha1.W;
    Sha1Word(b, 48, 0xda9415ed);
    Sha1Word(b, 49, 0x26380a16);
    Sha1Word(b, 50, 0x626383a1);
    Sha1Word(b, 51, 0x4ebf54de);
    Sha1Word(b, 52, 0x3835b44b);
    Sha1Word(b, 53, 0x0000f600);
    Sha1Word(b, 54, 0x1e84c7a3);
    Sha1Word(b, 55, 0x98e04d98);
    Sha1Word(b, 56, 0x651d16a0);
    Sha1Word(b, 57, 0x62658ca1);
    Sha1Word(b, 58, 0x458544d6);
    Sha1Word(b, 59, 0x44584cb7);
    Sha1Word(b, 60, 0x7ba06619);
    Sha1Word(b, 61, 0x6380aea2);
    Sha1Word(b, 62, 0x0ae55269);
    Sha1Word(b, 63, 0x627b49a1);
  }

  lemma Sha1Schedule4(b: seq<bv32>)
    requires |b| == 16 && Sha1Words(b, 48, 0xda9415ed, 0x26380a16, 0x626383a1, 0x4ebf54de, 0x3835b44b, 0x0000f600,
                  0x1e84c7a3, 0x98e04d98, 0x651d16a0, 0x62658ca1, 0x458544d6, 0x44584cb7, 0x7ba06619, 0x6380aea2,
                  0x0ae55269, 0x627b49a1)
    ensures Sha1Words(b, 64, 0x7cd45c9d, 0x000f0000, 0xfb50753a, 0xec6765e8, 0xba3c2be2, 0x0060c000, 0x3a37cd05,
                     0x458546f4, 0xb8599dd6, 0x380a1a26, 0x01e02203, 0xe7cc3456, 0xe6e60b69, 0x00f60a00, 0x5795ef4f,
                     0x822e0879)
  {
    hide Sha1.W;
    Sha1Word(b, 64, 0x7cd45c9d);
    Sha1Word(b, 65, 0x000f0000);
    Sha1Word(b, 66, 0xfb50753a);
    Sha1Word(b, 67, 0xec6765e8);
    Sha1Word(b, 68, 0xba3c2be2);
    Sha1Word(b, 69, 0x0060c000);
    Sha1Word(b, 70, 0x3a37cd05);
    Sha1Word(b, 71, 0x458546f4);
    Sha1Word(b, 72, 0xb8599dd6);
    Sha1Word(b, 73, 0x380a1a26);
    Sha1Word(b, 74, 0x01e02203);
    Sha1Word(b, 75, 0xe7cc3456);
    Sha1Word(b, 76, 0xe6e60b69);
    Sha1Word(b, 77, 0x00f60a00);
    Sha1Word(b, 78, 0x5795ef4f);
    Sha1Word(b, 79, 0x822e0879);
  }

  lemma Sha1Rounds0(h: Sha1.Regs, b: seq<bv32>)
    requires |b| == 16 && Sha1Words(b, 0, 0x61626380, 0x00000000, 0x00000000, 0x00000000, 0x00000000, 0x00000000,
                  0x00000000, 0x00000000, 0x00000000, 0x00000000, 0x00000000, 0x00000000, 0x00000000, 0x00000000,
                  0x00000000, 0x00000018)
    requires Sha1.Steps(h, b, 0) == Sha1.Regs(0x67452301, 0xefcdab89, 0x98badcfe, 0x10325476, 0xc3d2e1f0)
    ensures Sha1.Steps(h, b, 16) == Sha1.Regs(0x20bdd62f, 0x196bee77, 0x644a3da5, 0x1181ed99, 0x18c623f9)
  {
    hide Sha1.W, Sha1.Steps;
    var r := Sha1.Regs(0x67452301, 0xefcdab89, 0x98badcfe, 0x10325476, 0xc3d2e1f0);
    r := Sha1Step(h, b, 0, r, 0x0116fc33);
    r := Sha1Step(h, b, 1, r, 0x8990536d);
    r := Sha1Step(h, b, 2, r, 0xa1390f08);
    r := Sha1Step(h, b, 3, r, 0xcdd8e11b);
    r := Sha1Step(h, b, 4, r, 0xcfd499de);
    r := Sha1Step(h, b, 5, r, 0x3fc7ca40);
    r := Sha1Step(h, b, 6, r, 0x993e30c1);
    r := Sha1Step(h, b, 7, r, 0x9e8c07d4);
    r := Sha1Step(h, b, 8, r, 0x4b6ae328);
    r := Sha1Step(h, b, 9, r, 0x8351f929);
    r := Sha1Step(h, b, 10, r, 0xfbda9e89);
    r := Sha1Step(h, b, 11, r, 0x63188fe4);
    r := Sha1Step(h, b, 12, r, 0x4607b664);
    r := Sha1Step(h, b, 13, r, 0x9128f695);
    r := Sha1Step(h, b, 14, r, 0x196bee77);
    r := Sha1Step(h, b, 15, r, 0x20bdd62f);
  }

  lemma Sha1Rounds1(h: Sha1.Regs, b: seq<bv32>)
    requires |b| == 16 && Sha1Words(b, 16, 0xc2c4c700, 0x00000000, 0x00000030, 0x85898e01, 0x00000000, 0x00000060,
                  0x0b131c03, 0x00000030, 0x85898ec1, 0x16263806, 0x00000000, 0x00000180, 0x2c4c700c, 0x000000f0,
                  0x93afb507, 0x5898e048)
    requires Sha1.Steps(h, b, 16) == Sha1.Regs(0x20bdd62f, 0x196bee77, 0x644a3da5, 0x1181ed99, 0x18c623f9)
    ensures Sha1.Steps(h, b, 32) == Sha1.Regs(0x3b845d33, 0x1267b407, 0x717eebd7, 0xa0dc2d4b, 0xd2aa1365)
  {
    hide Sha1.W, Sha1.Steps;
    var r := Sha1.Regs(0x20bdd62f, 0x196bee77, 0x644a3da5, 0x1181ed99, 0x18c623f9);
    r := Sha1Step(h, b, 16, r, 0x4e925823);
    r := Sha1Step(h, b, 17, r, 0x82aa6728);
    r := Sha1Step(h, b, 18, r, 0xdc64901d);
    r := Sha1Step(h, b, 19, r, 0xfd9e1d7d);
    r := Sha1Step(h, b, 20, r, 0x1a37b0ca);
    r := Sha1Step(h, b, 21, r, 0x33a23bfc);
    r := Sha1Step(h, b, 22, r, 0x21283486);
    r := Sha1Step(h, b, 23, r, 0xd541f12d);
    r := Sha1Step(h, b, 24, r, 0xc7567dc6);
    r := Sha1Step(h, b, 25, r, 0x48413ba4);
    r := Sha1Step(h, b, 26, r, 0xbe35fbd5);
    r := Sha1Step(h, b, 27, r, 0x4aa84d97);
    r := Sha1Step(h, b, 28, r, 0x8370b52e);
    r := Sha1Step(h, b, 29, r, 0xc5fbaf5d);
    r := Sha1Step(h, b, 30, r, 0x1267b407);
    r := Sha1Step(h, b, 31, r, 0x3b845d33);
  }

  lemma Sha1Rounds2(h: Sha1.Regs, b: seq<bv32>)
    requires |b| == 16 && Sha1Words(b, 32, 0x8e9a9202, 0x00000600, 0xb131c0f0, 0x16263bc6, 0x4ebed41e, 0x626380a1,
                  0x16263806, 0x000018c0, 0xd2e138c4, 0x00000f00, 0x3afb5079, 0x898e04e5, 0xe2ba3c2b, 0x000060c0,
                  0x053a37cd, 0x74458547)
    requires Sha1.Steps(h, b, 32) == Sha1.Regs(0x3b845d33, 0x1267b407, 0x717eebd7, 0xa0dc2d4b, 0xd2aa1365)
    ensures Sha1.Steps(h, b, 48) == Sha1.Regs(0xbead02ca, 0xa01b846c, 0x8714787c, 0x503ca382, 0xfb86c6ab)
  {
    hide Sha1.W, Sha1.Steps;
    var r := Sha1.Regs(0x3b845d33, 0x1267b407, 0x717eebd7, 0xa0dc2d4b, 0xd2aa1365);
    r := Sha1Step(h, b, 32, r, 0x046faa0a);
    r := Sha1Step(h, b, 33, r, 0x2c0ebc11);
    r := Sha1Step(h, b, 34, r, 0x21796ad4);
    r := Sha1Step(h, b, 35, r, 0xdcbbb0cb);
    r := Sha1Step(h, b, 36, r, 0x0f511fd8);
    r := Sha1Step(h, b, 37, r, 0xdc63973f);
    r := Sha1Step(h, b, 38, r, 0x4c986405);
    r := Sha1Step(h, b, 39, r, 0x32de1cba);
    r := Sha1Step(h, b, 40, r, 0xfc87dedf);
    r := Sha1Step(h, b, 41, r, 0x970a0d5c);
    r := Sha1Step(h, b, 42, r, 0x7f193dc5);
    r := Sha1Step(h, b, 43, r, 0xee1b1aaf);
    r := Sha1Step(h, b, 44, r, 0x40f28e09);
    r := Sha1Step(h, b, 45, r, 0x1c51e1f2);
    r := Sha1Step(h, b, 46, r, 0xa01b846c);
    r := Sha1Step(h, b, 47, r, 0xbead02ca);
  }

  lemma Sha1Rounds3(h: Sha1.Regs, b: seq<bv32>)
    requires |b| == 16 && Sha1Words(b, 48, 0xda9415ed, 0x26380a16, 0x626383a1, 0x4ebf54de, 0x3835b44b, 0x0000f600,
                  0x1e84c7a3, 0x98e04d98, 0x651d16a0, 0x62658ca1, 0x458544d6, 0x44584cb7, 0x7ba06619, 0x6380aea2,
                  0x0ae55269, 0x627b49a1)
    requires Sha1.Steps(h, b, 48) == Sha1.Regs(0xbead02ca, 0xa01b846c, 0x8714787c, 0x503ca382, 0xfb86c6ab)
    ensures Sha1.Steps(h, b, 64) == Sha1.Regs(0x6b61c9e1, 0xb66c020b, 0x9523272c, 0xf5d5b051, 0x8fd4b796)
  {
    hide Sha1.W, Sha1.Steps;
    var r := Sha1.Regs(0xbead02ca, 0xa01b846c, 0x8714787c, 0x503ca382, 0xfb86c6ab);
    r := Sha1Step(h, b, 48, r, 0xbaf39337);
    r := Sha1Step(h, b, 49, r, 0x120731c5);
    r := Sha1Step(h, b, 50, r, 0x641db2ce);
    r := Sha1Step(h, b, 51, r, 0x3847ad66);
    r := Sha1Step(h, b, 52, r, 0xe490436d);
    r := Sha1Step(h, b, 53, r, 0x27e9f1d8);
    r := Sha1Step(h, b, 54, r, 0x7b71f76d);
    r := Sha1Step(h, b, 55, r, 0x5e6456af);
    r := Sha1Step(h, b, 56, r, 0xc846093f);
    r := Sha1Step(h, b, 57, r, 0xd262ff50);
    r := Sha1Step(h, b, 58, r, 0x09d785fd);
    r := Sha1Step(h, b, 59, r, 0x3f52de5a);
    r := Sha1Step(h, b, 60, r, 0xd756c147);
    r := Sha1Step(h, b, 61, r, 0x548c9cb2);
    r := Sha1Step(h, b, 62, r, 0xb66c020b);
    r := Sha1Step(h, b, 63, r, 0x6b61c9e1);
  }

  lemma Sha1Rounds4(h: Sha1.Regs, b: seq<bv32>)
    requires |b| == 16 && Sha1Words(b, 64, 0x7cd45c9d, 0x000f0000, 0xfb50753a, 0xec6765e8, 0xba3c2be2, 0x0060c000,
                  0x3a37cd05, 0x458546f4, 0xb8599dd6, 0x380a1a26, 0x01e02203, 0xe7cc3456, 0xe6e60b69, 0x00f60a00,
                  0x5795ef4f, 0x822e0879)
    requires Sha1.Steps(h, b, 64) == Sha1.Regs(0x6b61c9e1, 0xb66c020b, 0x9523272c, 0xf5d5b051, 0x8fd4b796)
    ensures Sha1.Steps(h, b, 80) == Sha1.Regs(0x42541b35, 0x5738d5e1, 0x21834873, 0x681e6df6, 0xd8fdf6ad)
  {
    hide Sha1.W, Sha1.Steps;
    var r := Sha1.Regs(0x6b61c9e1, 0xb66c020b, 0x9523272c, 0xf5d5b051, 0x8fd4b796);
    r := Sha1Step(h, b, 64, r, 0x19dfa7ac);
    r := Sha1Step(h, b, 65, r, 0x101655f9);
    r := Sha1Step(h, b, 66, r, 0x0c3df2b4);
    r := Sha1Step(h, b, 67, r, 0x78dd4d2b);
    r := Sha1Step(h, b, 68, r, 0x497093c0);
    r := Sha1Step(h, b, 69, r, 0x3f2588c2);
    r := Sha1Step(h, b, 70, r, 0xc199f8c7);
    r := Sha1Step(h, b, 71, r, 0x39859de7);
    r := Sha1Step(h, b, 72, r, 0xedb42de4);
    r := Sha1Step(h, b, 73, r, 0x11793f6f);
    r := Sha1Step(h, b, 74, r, 0x5ee76897);
    r := Sha1Step(h, b, 75, r, 0x63f7dab7);
    r := Sha1Step(h, b, 76, r, 0xa079b7d9);
    r := Sha1Step(h, b, 77, r, 0x860d21cc);
    r := Sha1Step(h, b, 78, r, 0x5738d5e1);
    r := Sha1Step(h, b, 79, r, 0x42541b35);
  }

  /** The words of the block. */
  ghost predicate Sha1Message(b: seq<bv32>) {
    |b| == 16 && forall i :: 0 <= i < 16 ==> b[i] == if i == 0 then 0x61626380 else if i == 15 then 24 else 0
  }

  lemma Sha1Start(b: seq<bv32>)
    requires Sha1Message(b)
    ensures Sha1Words(b, 0, 0x61626380, 0, 0, 0, 0, 0, 0, 0, 0, 0, 0, 0, 0, 0, 0, 24)
  {
    assert forall t :: 0 <= t < 16 ==> Sha1.W(b, t) == b[t];
    hide Sha1.W;
  }

  lemma Sha1Block(bytes: seq<Byte>)
    requires bytes == [0x61, 0x62, 0x63, 0x80] + seq(52, _ => 0) + [0, 0, 0, 0, 0, 0, 0, 24]
    ensures |bytes| == 64 && Sha1Message(Sha1.Words(bytes))
  {
    forall i | 0 <= i < 16
      ensures Sha1.Words(bytes)[i] == if i == 0 then 0x61626380 else if i == 15 then 24 else 0
    {
      Sha1BlockWord(bytes, i);
    }
  }

  lemma Sha1BlockWord(bytes: seq<Byte>, i: nat)
    requires bytes == [0x61, 0x62, 0x63, 0x80] + seq(52, _ => 0) + [0, 0, 0, 0, 0, 0, 0, 24] && i < 16
    ensures Sha1.Words(bytes)[i] == if i == 0 then 0x61626380 else if i == 15 then 24 else 0
  {
    hide Sha1.Word;
    Sha1WordValues();
    if 0 < i < 14 {
      assert bytes[4 * i] == bytes[4 * i + 1] == bytes[4 * i + 2] == bytes[4 * i + 3] == 0;
    }
  }

  lemma Sha1WordValues()
    ensures Sha1.Word(0, 0, 0, 0) == 0 && Sha1.Word(0x61, 0x62, 0x63, 0x80) == 0x61626380
    ensures Sha1.Word(0, 0, 0, 24) == 24
  {
  }

  lemma Sha1Compress(h: Sha1.Regs, b: seq<bv32>)
    requires h == Sha1.Regs(0x67452301, 0xefcdab89, 0x98badcfe, 0x10325476, 0xc3d2e1f0)
    requires Sha1Message(b)
    ensures Sha1.Compress(h, b) == Sha1.Regs(0xa9993e36, 0x4706816a, 0xba3e2571, 0x7850c26c, 0x9cd0d89d)
  {
    assert |b| == 16;
    hide *;
    Sha1.StepsStart(h, b);
    Sha1Start(b);
    Sha1Rounds0(h, b);
    Sha1Schedule1(b);
    Sha1Rounds1(h, b);
    Sha1Schedule2(b);
    Sha1Rounds2(h, b);
    Sha1Schedule3(b);
    Sha1Rounds3(h, b);
    Sha1Schedule4(b);
    Sha1Rounds4(h, b);
    Sha1.CompressIs(h, b);
    Sha1Sum(h, Sha1.Steps(h, b, 80));
  }

  lemma Sha1Sum(h: Sha1.Regs, r: Sha1.Regs)
    requires h == Sha1.Regs(0x67452301, 0xefcdab89, 0x98badcfe, 0x10325476, 0xc3d2e1f0)
    requires r == Sha1.Regs(0x42541b35, 0x5738d5e1, 0x21834873, 0x681e6df6, 0xd8fdf6ad)
    ensures Sha1.Sum(h, r) == Sha1.Regs(0xa9993e36, 0x4706816a, 0xba3e2571, 0x7850c26c, 0x9cd0d89d)
  {
  }

  /** The SHA-1 digest of "abc". */
  lemma Sha1Abc()
    ensures Compressed(ShaState(Sha1.INIT), Padded(ABC, Msb))
            == ShaState(Sha1.Regs(0xa9993e36, 0x4706816a, 0xba3e2571, 0x7850c26c, 0x9cd0d89d))
  {
    assert Sha1.INIT == Sha1.Regs(0x67452301, 0xefcdab89, 0x98badcfe, 0x10325476, 0xc3d2e1f0);
    hide *;
    PaddedAbc(Msb);
    var bytes := Padded(ABC, Msb);
    Sha1Block(bytes);
    OneBlock(ShaState(Sha1.INIT), bytes);
    CompressIs(ShaState(Sha1.INIT), bytes);
    Sha1Bytes(Sha1.INIT, bytes);
    Sha1Compress(Sha1.INIT, Sha1.Words(bytes));
  }

  lemma Sha1Bytes(h: Sha1.Regs, bytes: seq<Byte>)
    requires |bytes| == 64
    ensures Sha1.CompressBytes(h, bytes) == Sha1.Compress(h, Sha1.Words(bytes))
  {
    hide Sha1.Compress, Sha1.Words;
  }

  // MD5

  /** The words of the block. */
  ghost predicate Md5Message(b: seq<bv32>) {
    |b| == 16 && forall i :: 0 <= i < 16 ==> b[i] == if i == 0 then 0x80636261 else if i == 14 then 24 else 0
  }

  /** The line of step t: the word, the rotation and the constant it takes. */
  ghost predicate Md5Line(b: seq<bv32>, t: nat, x: bv32, s: bv32, k: bv32)
    requires |b| == 16 && t < 64
  {
    b[Md5.WordIndex(t)] == x && Md5.Turn(t) == s && Md5.Sine(t) == k
  }

  lemma Md5Step(h: Md5.Regs, b: seq<bv32>, t: nat, r: Md5.Regs, x: bv32, s: bv32, k: bv32, a: bv32)
    returns (next: Md5.Regs)
    requires |b| == 16 && t < 64 && Md5.Steps(h, b, t) == r && Md5Line(b, t, x, s, k) && s <= 32
    requires a == Md5.Plus(r.b, Md5.Rol(Md5.Plus(Md5.Plus(Md5.Plus(r.a, Md5.Mix(t, r.b, r.c, r.d)), x), k), s))
    ensures Md5.Steps(h, b, t + 1) == next == Md5.Regs(r.d, a, r.b, r.c)
  {
    next := Md5.Steps(h, b, t + 1);
    Md5.StepsNext(h, b, t);
    hide Md5.Plus, Md5.Rol, Md5.Mix, Md5.WordIndex, Md5.Turn, Md5.Sine;
  }

  lemma Md5Lines0(b: seq<bv32>)
    requires Md5Message(b)
    ensures Md5Line(b, 0, 0x80636261, 7, 0xd76aa478) && Md5Line(b, 1, 0, 12, 0xe8c7b756)
    ensures Md5Line(b, 2, 0, 17, 0x242070db) && Md5Line(b, 3, 0, 22, 0xc1bdceee)
  {
  }

  lemma Md5Lines1(b: seq<bv32>)
    requires Md5Message(b)
    ensures Md5Line(b, 4, 0, 7, 0xf57c0faf) && Md5Line(b, 5, 0, 12, 0x4787c62a)
    ensures Md5Line(b, 6, 0, 17, 0xa8304613) && Md5Line(b, 7, 0, 22, 0xfd469501)
  {
  }

  lemma Md5Lines2(b: seq<bv32>)
    requires Md5Message(b)
    ensures Md5Line(b, 8, 0, 7, 0x698098d8) && Md5Line(b, 9, 0, 12, 0x8b44f7af)
    ensures Md5Line(b, 10, 0, 17, 0xffff5bb1) && Md5Line(b, 11, 0, 22, 0x895cd7be)
  {
  }

  lemma Md5Lines3(b: seq<bv32>)
    requires Md5Message(b)
    ensures Md5Line(b, 12, 0, 7, 0x6b901122) && Md5Line(b, 13, 0, 12, 0xfd987193)
    ensures Md5Line(b, 14, 24, 17, 0xa679438e) && Md5Line(b, 15, 0, 22, 0x49b40821)
  {
  }

  lemma Md5Lines4(b: seq<bv32>)
    requires Md5Message(b)
    ensures Md5Line(b, 16, 0, 5, 0xf61e2562) && Md5Line(b, 17, 0, 9, 0xc040b340)
    ensures Md5Line(b, 18, 0, 14, 0x265e5a51) && Md5Line(b, 19, 0x80636261, 20, 0xe9b6c7aa)
  {
  }

  lemma Md5Lines5(b: seq<bv32>)
    requires Md5Message(b)
    ensures Md5Line(b, 20, 0, 5, 0xd62f105d) && Md5Line(b, 21, 0, 9, 0x02441453)
    ensures Md5Line(b, 22, 0, 14, 0xd8a1e681) && Md5Line(b, 23, 0, 20, 0xe7d3fbc8)
  {
  }

  lemma Md5Lines6(b: seq<bv32>)
    requires Md5Message(b)
    ensures Md5Line(b, 24, 0, 5, 0x21e1cde6) && Md5Line(b, 25, 24, 9, 0xc33707d6)
    ensures Md5Line(b, 26, 0, 14, 0xf4d50d87) && Md5Line(b, 27, 0, 20, 0x455a14ed)
  {
  }

  lemma Md5Lines7(b: seq<bv32>)
    requires Md5Message(b)
    ensures Md5Line(b, 28, 0, 5, 0xa9e3e905) && Md5Line(b, 29, 0, 9, 0xfcefa3f8)
    ensures Md5Line(b, 30, 0, 14, 0x676f02d9) && Md5Line(b, 31, 0, 20, 0x8d2a4c8a)
  {
  }

  lemma Md5Lines8(b: seq<bv32>)
    requires Md5Message(b)
    ensures Md5Line(b, 32, 0, 4, 0xfffa3942) && Md5Line(b, 33, 0, 11, 0x8771f681)
    ensures Md5Line(b, 34, 0, 16, 0x6d9d6122) && Md5Line(b, 35, 24, 23, 0xfde5380c)
  {
  }

  lemma Md5Lines9(b: seq<bv32>)
    requires Md5Message(b)
    ensures Md5Line(b, 36, 0, 4, 0xa4beea44) && Md5Line(b, 37, 0, 11, 0x4bdecfa9)
    ensures Md5Line(b, 38, 0, 16, 0xf6bb4b60) && Md5Line(b, 39, 0, 23, 0xbebfbc70)
  {
  }

  lemma Md5Lines10(b: seq<bv32>)
    requires Md5Message(b)
    ensures Md5Line(b, 40, 0, 4, 0x289b7ec6) && Md5Line(b, 41, 0x80636261, 11, 0xeaa127fa)
    ensures Md5Line(b, 42, 0, 16, 0xd4ef3085) && Md5Line(b, 43, 0, 23, 0x04881d05)
  {
  }

  lemma Md5Lines11(b: seq<bv32>)
    requires Md5Message(b)
    ensures Md5Line(b, 44, 0, 4, 0xd9d4d039) && Md5Line(b, 45, 0, 11, 0xe6db99e5)
    ensures Md5Line(b, 46, 0, 16, 0x1fa27cf8) && Md5Line(b, 47, 0, 23, 0xc4ac5665)
  {
  }

  lemma Md5Lines12(b: seq<bv32>)
    requires Md5Message(b)
    ensures Md5Line(b, 48, 0x80636261, 6, 0xf4292244) && Md5Line(b, 49, 0, 10, 0x432aff97)
    ensures Md5Line(b, 50, 24, 15, 0xab9423a7) && Md5Line(b, 51, 0, 21, 0xfc93a039)
  {
  }

  lemma Md5Lines13(b: seq<bv32>)
    requires Md5Message(b)
    ensures Md5Line(b, 52, 0, 6, 0x655b59c3) && Md5Line(b, 53, 0, 10, 0x8f0ccc92)
    ensures Md5Line(b, 54, 0, 15, 0xffeff47d) && Md5Line(b, 55, 0, 21, 0x85845dd1)
  {
  }

  lemma Md5Lines14(b: seq<bv32>)
    requires Md5Message(b)
    ensures Md5Line(b, 56, 0, 6, 0x6fa87e4f) && Md5Line(b, 57, 0, 10, 0xfe2ce6e0)
    ensures Md5Line(b, 58, 0, 15, 0xa3014314) && Md5Line(b, 59, 0, 21, 0x4e0811a1)
  {
  }

  lemma Md5Lines15(b: seq<bv32>)
    requires Md5Message(b)
    ensures Md5Line(b, 60, 0, 6, 0xf7537e82) && Md5Line(b, 61, 0, 10, 0xbd3af235)
    ensures Md5Line(b, 62, 0, 15, 0x2ad7d2bb) && Md5Line(b, 63, 0, 21, 0xeb86d391)
  {
  }

  lemma Md5Steps0(h: Md5.Regs, b: seq<bv32>)
    requires Md5Message(b)
    requires Md5.Steps(h, b, 0) == Md5.Regs(0x67452301, 0xefcdab89, 0x98badcfe, 0x10325476)
    ensures Md5.Steps(h, b, 16) == Md5.Regs(0xdda9b9a6, 0x72aff2e0, 0xe396856b, 0xa1051895)
  {
    Md5Lines0(b);
    Md5Lines1(b);
    Md5Lines2(b);
    Md5Lines3(b);
    hide Md5.Steps, Md5Line, Md5Message;
    var r := Md5.Regs(0x67452301, 0xefcdab89, 0x98badcfe, 0x10325476);
    r := Md5Step(h, b, 0, r, 0x80636261, 7, 0xd76aa478, 0xd6d117b4);
    r := Md5Step(h, b, 1, r, 0, 12, 0xe8c7b756, 0x344a8432);
    r := Md5Step(h, b, 2, r, 0, 17, 0x242070db, 0x2f6fbd72);
    r := Md5Step(h, b, 3, r, 0, 22, 0xc1bdceee, 0x7ad956f2);
    r := Md5Step(h, b, 4, r, 0, 7, 0xf57c0faf, 0xc73741ef);
    r := Md5Step(h, b, 5, r, 0, 12, 0x4787c62a, 0x8bac3051);
    r := Md5Step(h, b, 6, r, 0, 17, 0xa8304613, 0x207dc67b);
    r := Md5Step(h, b, 7, r, 0, 22, 0xfd469501, 0x928d99f6);
    r := Md5Step(h, b, 8, r, 0, 7, 0x698098d8, 0x854b3712);
    r := Md5Step(h, b, 9, r, 0, 12, 0x8b44f7af, 0x74e2f284);
    r := Md5Step(h, b, 10, r, 0, 17, 0xffff5bb1, 0x3020401c);
    r := Md5Step(h, b, 11, r, 0, 22, 0x895cd7be, 0x5ed49596);
    r := Md5Step(h, b, 12, r, 0, 7, 0x6b901122, 0xdda9b9a6);
    r := Md5Step(h, b, 13, r, 0, 12, 0xfd987193, 0xa1051895);
    r := Md5Step(h, b, 14, r, 24, 17, 0xa679438e, 0xe396856b);
    r := Md5Step(h, b, 15, r, 0, 22, 0x49b40821, 0x72aff2e0);
  }

  lemma Md5Steps1(h: Md5.Regs, b: seq<bv32>)
    requires Md5Message(b)
    requires Md5.Steps(h, b, 16) == Md5.Regs(0xdda9b9a6, 0x72aff2e0, 0xe396856b, 0xa1051895)
    ensures Md5.Steps(h, b, 32) == Md5.Regs(0x790a77fb, 0x726342d3, 0xa62884aa, 0x9f47e4f8)
  {
    Md5Lines4(b);
    Md5Lines5(b);
    Md5Lines6(b);
    Md5Lines7(b);
    hide Md5.Steps, Md5Line, Md5Message;
    var r := Md5.Regs(0xdda9b9a6, 0x72aff2e0, 0xe396856b, 0xa1051895);
    r := Md5Step(h, b, 16, r, 0, 5, 0xf61e2562, 0x3e9e9126);
    r := Md5Step(h, b, 17, r, 0, 9, 0xc040b340, 0x4a1d804e);
    r := Md5Step(h, b, 18, r, 0, 14, 0x265e5a51, 0xe25e1652);
    r := Md5Step(h, b, 19, r, 0x80636261, 20, 0xe9b6c7aa, 0xb5b204e4);
    r := Md5Step(h, b, 20, r, 0, 5, 0xd62f105d, 0x59a8ffda);
    r := Md5Step(h, b, 21, r, 0, 9, 0x02441453, 0x6d002f1e);
    r := Md5Step(h, b, 22, r, 0, 14, 0xd8a1e681, 0xabfc7920);
    r := Md5Step(h, b, 23, r, 0, 20, 0xe7d3fbc8, 0x47092c07);
    r := Md5Step(h, b, 24, r, 0, 5, 0x21e1cde6, 0xb7f268cf);
    r := Md5Step(h, b, 25, r, 24, 9, 0xc33707d6, 0x09388eff);
    r := Md5Step(h, b, 26, r, 0, 14, 0xf4d50d87, 0xfe1623b1);
    r := Md5Step(h, b, 27, r, 0, 20, 0x455a14ed, 0x786acb8f);
    r := Md5Step(h, b, 28, r, 0, 5, 0xa9e3e905, 0x790a77fb);
    r := Md5Step(h, b, 29, r, 0, 9, 0xfcefa3f8, 0x9f47e4f8);
    r := Md5Step(h, b, 30, r, 0, 14, 0x676f02d9, 0xa62884aa);
    r := Md5Step(h, b, 31, r, 0, 20, 0x8d2a4c8a, 0x726342d3);
  }

  lemma Md5Steps2(h: Md5.Regs, b: seq<bv32>)
    requires Md5Message(b)
    requires Md5.Steps(h, b, 32) == Md5.Regs(0x790a77fb, 0x726342d3, 0xa62884aa, 0x9f47e4f8)
    ensures Md5.Steps(h, b, 48) == Md5.Regs(0x7f2e507b, 0x7beb9700, 0x8fae6399, 0x99d9679d)
  {
    Md5Lines8(b);
    Md5Lines9(b);
    Md5Lines10(b);
    Md5Lines11(b);
    hide Md5.Steps, Md5Line, Md5Message;
    var r := Md5.Regs(0x790a77fb, 0x726342d3, 0xa62884aa, 0x9f47e4f8);
    r := Md5Step(h, b, 32, r, 0, 4, 0xfffa3942, 0xb3707ebf);
    r := Md5Step(h, b, 33, r, 0, 11, 0x8771f681, 0x60127b2e);
    r := Md5Step(h, b, 34, r, 0, 16, 0x6d9d6122, 0x8d212ff5);
    r := Md5Step(h, b, 35, r, 24, 23, 0xfde5380c, 0x3b0875c7);
    r := Md5Step(h, b, 36, r, 0, 4, 0xa4beea44, 0x21b117b9);
    r := Md5Step(h, b, 37, r, 0, 11, 0x4bdecfa9, 0x6e7429d5);
    r := Md5Step(h, b, 38, r, 0, 16, 0xf6bb4b60, 0x3575227e);
    r := Md5Step(h, b, 39, r, 0, 23, 0xbebfbc70, 0x5a2f5ea5);
    r := Md5Step(h, b, 40, r, 0, 4, 0x289b7ec6, 0x11de1779);
    r := Md5Step(h, b, 41, r, 0x80636261, 11, 0xeaa127fa, 0xfadcaa38);
    r := Md5Step(h, b, 42, r, 0, 16, 0xd4ef3085, 0x31c465ca);
    r := Md5Step(h, b, 43, r, 0, 23, 0x04881d05, 0x4c6124f4);
    r := Md5Step(h, b, 44, r, 0, 4, 0xd9d4d039, 0x7f2e507b);
    r := Md5Step(h, b, 45, r, 0, 11, 0xe6db99e5, 0x99d9679d);
    r := Md5Step(h, b, 46, r, 0, 16, 0x1fa27cf8, 0x8fae6399);
    r := Md5Step(h, b, 47, r, 0, 23, 0xc4ac5665, 0x7beb9700);
  }

  lemma Md5Steps3(h: Md5.Regs, b: seq<bv32>)
    requires Md5Message(b)
    requires Md5.Steps(h, b, 48) == Md5.Regs(0x7f2e507b, 0x7beb9700, 0x8fae6399, 0x99d9679d)
    ensures Md5.Steps(h, b, 64) == Md5.Regs(0x310ade8f, 0xc08226b3, 0xe484b9d8, 0x624d8cb2)
  {
    Md5Lines12(b);
    Md5Lines13(b);
    Md5Lines14(b);
    Md5Lines15(b);
    hide Md5.Steps, Md5Line, Md5Message;
    var r := Md5.Regs(0x7f2e507b, 0x7beb9700, 0x8fae6399, 0x99d9679d);
    r := Md5Step(h, b, 48, r, 0x80636261, 6, 0xf4292244, 0x7b201df8);
    r := Md5Step(h, b, 49, r, 0, 10, 0x432aff97, 0xf4e8e96e);
    r := Md5Step(h, b, 50, r, 24, 15, 0xab9423a7, 0xb298cefd);
    r := Md5Step(h, b, 51, r, 0, 21, 0xfc93a039, 0x8bf025c4);
    r := Md5Step(h, b, 52, r, 0, 6, 0x655b59c3, 0x06cc5e8a);
    r := Md5Step(h, b, 53, r, 0, 10, 0x8f0ccc92, 0x5b0d97aa);
    r := Md5Step(h, b, 54, r, 0, 15, 0xffeff47d, 0x7d632dd0);
    r := Md5Step(h, b, 55, r, 0, 21, 0x85845dd1, 0x3bfa2c27);
    r := Md5Step(h, b, 56, r, 0, 6, 0x6fa87e4f, 0x7f81cc35);
    r := Md5Step(h, b, 57, r, 0, 10, 0xfe2ce6e0, 0x094454ab);
    r := Md5Step(h, b, 58, r, 0, 15, 0xa3014314, 0x4f9dbe3f);
    r := Md5Step(h, b, 59, r, 0, 21, 0x4e0811a1, 0x7327d604);
    r := Md5Step(h, b, 60, r, 0, 6, 0xf7537e82, 0x310ade8f);
    r := Md5Step(h, b, 61, r, 0, 10, 0xbd3af235, 0x624d8cb2);
    r := Md5Step(h, b, 62, r, 0, 15, 0x2ad7d2bb, 0xe484b9d8);
    r := Md5Step(h, b, 63, r, 0, 21, 0xeb86d391, 0xc08226b3);
  }

  lemma Md5Block(bytes: seq<Byte>)
    requires bytes == [0x61, 0x62, 0x63, 0x80] + seq(52, _ => 0) + [24, 0, 0, 0, 0, 0, 0, 0]
    ensures |bytes| == 64 && Md5Message(Md5.Words(bytes))
  {
    forall i | 0 <= i < 16
      ensures Md5.Words(bytes)[i] == if i == 0 then 0x80636261 else if i == 14 then 24 else 0
    {
      Md5BlockWord(bytes, i);
    }
  }

  lemma Md5BlockWord(bytes: seq<Byte>, i: nat)
    requires bytes == [0x61, 0x62, 0x63, 0x80] + seq(52, _ => 0) + [24, 0, 0, 0, 0, 0, 0, 0] && i < 16
    ensures Md5.Words(bytes)[i] == if i == 0 then 0x80636261 else if i == 14 then 24 else 0
  {
    hide Md5.Word;
    Md5WordValues();
    if 0 < i < 14 {
      assert bytes[4 * i] == bytes[4 * i + 1] == bytes[4 * i + 2] == bytes[4 * i + 3] == 0;
    }
  }

  lemma Md5WordValues()
    ensures Md5.Word(0, 0, 0, 0) == 0 && Md5.Word(0x61, 0x62, 0x63, 0x80) == 0x80636261
    ensures Md5.Word(24, 0, 0, 0) == 24
  {
  }

  lemma Md5Compress(h: Md5.Regs, b: seq<bv32>)
    requires h == Md5.Regs(0x67452301, 0xefcdab89, 0x98badcfe, 0x10325476)
    requires Md5Message(b)
    ensures Md5.Compress(h, b) == Md5.Regs(0x98500190, 0xb04fd23c, 0x7d3f96d6, 0x727fe128)
  {
    assert |b| == 16;
    hide *;
    Md5.StepsStart(h, b);
    Md5Steps0(h, b);
    Md5Steps1(h, b);
    Md5Steps2(h, b);
    Md5Steps3(h, b);
    Md5.CompressIs(h, b);
    Md5Sum(h, Md5.Steps(h, b, 64));
  }

  lemma Md5Sum(h: Md5.Regs, r: Md5.Regs)
    requires h == Md5.Regs(0x67452301, 0xefcdab89, 0x98badcfe, 0x10325476)
    requires r == Md5.Regs(0x310ade8f, 0xc08226b3, 0xe484b9d8, 0x624d8cb2)
    ensures Md5.Sum(h, r) == Md5.Regs(0x98500190, 0xb04fd23c, 0x7d3f96d6, 0x727fe128)
  {
  }

  /** The MD5 digest of "abc". */
  lemma Md5Abc()
    ensures Compressed(Md5State(Md5.INIT), Padded(ABC, Lsb))
            == Md5State(Md5.Regs(0x98500190, 0xb04fd23c, 0x7d3f96d6, 0x727fe128))
  {
    assert Md5.INIT == Md5.Regs(0x67452301, 0xefcdab89, 0x98badcfe, 0x10325476);
    hide *;
    PaddedAbc(Lsb);
    var bytes := Padded(ABC, Lsb);
    Md5Block(bytes);
    OneBlock(Md5State(Md5.INIT), bytes);
    CompressIs(Md5State(Md5.INIT), bytes);
    Md5Bytes(Md5.INIT, bytes);
    Md5Compress(Md5.INIT, Md5.Words(bytes));
  }

  lemma Md5Bytes(h: Md5.Regs, bytes: seq<Byte>)
    requires |bytes| == 64
    ensures Md5.CompressBytes(h, bytes) == Md5.Compress(h, Md5.Words(bytes))
  {
    hide Md5.Compress, Md5.Words;
  }

}
