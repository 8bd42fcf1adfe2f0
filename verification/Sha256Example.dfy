/** The example of a message of one block in appendix B.1 of FIPS 180-2: the digest of "abc". */
module Sha256Example {
  import opened Octets
  import opened Words
  import opened Sha256Standard
  import opened Sha256Constants
  import Streaming = Sha256

  const ABC: seq<Octet> := [0x61, 0x62, 0x63]

  /** The padded message. */
  predicate IsBlock(m: seq<Word>) {
    |m| == 16 && m[0] == 0x6162_6380 && m[15] == 24 && forall t :: 1 <= t < 15 ==> m[t] == 0
  }

  // ----- the message schedule -----

  lemma Expansion16()
    ensures Add(Add(Add(Sigma1(0x00000000), 0x00000000), Sigma0(0x00000000)), 0x61626380) == 0x61626380
    ensures Add(Add(Add(Sigma1(0x00000018), 0x00000000), Sigma0(0x00000000)), 0x00000000) == 0x000f0000
    ensures Add(Add(Add(Sigma1(0x61626380), 0x00000000), Sigma0(0x00000000)), 0x00000000) == 0x7da86405
    ensures Add(Add(Add(Sigma1(0x000f0000), 0x00000000), Sigma0(0x00000000)), 0x00000000) == 0x600003c6
    ensures Add(Add(Add(Sigma1(0x7da86405), 0x00000000), Sigma0(0x00000000)), 0x00000000) == 0x3e9d7b78
    ensures Add(Add(Add(Sigma1(0x600003c6), 0x00000000), Sigma0(0x00000000)), 0x00000000) == 0x0183fc00
    ensures Add(Add(Add(Sigma1(0x3e9d7b78), 0x00000018), Sigma0(0x00000000)), 0x00000000) == 0x12dcbfdb
    ensures Add(Add(Add(Sigma1(0x0183fc00), 0x61626380), Sigma0(0x00000000)), 0x00000000) == 0xe2e2c38e
    ensures Add(Add(Add(Sigma1(0x12dcbfdb), 0x000f0000), Sigma0(0x00000000)), 0x00000000) == 0xc8215c1a
    ensures Add(Add(Add(Sigma1(0xe2e2c38e), 0x7da86405), Sigma0(0x00000000)), 0x00000000) == 0xb73679a2
    ensures Add(Add(Add(Sigma1(0xc8215c1a), 0x600003c6), Sigma0(0x00000000)), 0x00000000) == 0xe5bc3909
    ensures Add(Add(Add(Sigma1(0xb73679a2), 0x3e9d7b78), Sigma0(0x00000000)), 0x00000000) == 0x32663c5b
    ensures Add(Add(Add(Sigma1(0xe5bc3909), 0x0183fc00), Sigma0(0x00000000)), 0x00000000) == 0x9d209d67
    ensures Add(Add(Add(Sigma1(0x32663c5b), 0x12dcbfdb), Sigma0(0x00000000)), 0x00000000) == 0xec8726cb
    ensures Add(Add(Add(Sigma1(0x9d209d67), 0xe2e2c38e), Sigma0(0x00000018)), 0x00000000) == 0x702138a4
    ensures Add(Add(Add(Sigma1(0xec8726cb), 0xc8215c1a), Sigma0(0x61626380)), 0x00000018) == 0xd3b7973b
  {
  }

  lemma Expansion32()
    ensures Add(Add(Add(Sigma1(0x702138a4), 0xb73679a2), Sigma0(0x000f0000)), 0x61626380) == 0x93f5997f
    ensures Add(Add(Add(Sigma1(0xd3b7973b), 0xe5bc3909), Sigma0(0x7da86405)), 0x000f0000) == 0x3b68ba73
    ensures Add(Add(Add(Sigma1(0x93f5997f), 0x32663c5b), Sigma0(0x600003c6)), 0x7da86405) == 0xaff4ffc1
    ensures Add(Add(Add(Sigma1(0x3b68ba73), 0x9d209d67), Sigma0(0x3e9d7b78)), 0x600003c6) == 0xf10a5c62
    ensures Add(Add(Add(Sigma1(0xaff4ffc1), 0xec8726cb), Sigma0(0x0183fc00)), 0x3e9d7b78) == 0x0a8b3996
    ensures Add(Add(Add(Sigma1(0xf10a5c62), 0x702138a4), Sigma0(0x12dcbfdb)), 0x0183fc00) == 0x72af830a
    ensures Add(Add(Add(Sigma1(0x0a8b3996), 0xd3b7973b), Sigma0(0xe2e2c38e)), 0x12dcbfdb) == 0x9409e33e
    ensures Add(Add(Add(Sigma1(0x72af830a), 0x93f5997f), Sigma0(0xc8215c1a)), 0xe2e2c38e) == 0x24641522
    ensures Add(Add(Add(Sigma1(0x9409e33e), 0x3b68ba73), Sigma0(0xb73679a2)), 0xc8215c1a) == 0x9f47bf94
    ensures Add(Add(Add(Sigma1(0x24641522), 0xaff4ffc1), Sigma0(0xe5bc3909)), 0xb73679a2) == 0xf0a64f5a
    ensures Add(Add(Add(Sigma1(0x9f47bf94), 0xf10a5c62), Sigma0(0x32663c5b)), 0xe5bc3909) == 0x3e246a79
    ensures Add(Add(Add(Sigma1(0xf0a64f5a), 0x0a8b3996), Sigma0(0x9d209d67)), 0x32663c5b) == 0x27333ba3
    ensures Add(Add(Add(Sigma1(0x3e246a79), 0x72af830a), Sigma0(0xec8726cb)), 0x9d209d67) == 0x0c4763f2
    ensures Add(Add(Add(Sigma1(0x27333ba3), 0x9409e33e), Sigma0(0x702138a4)), 0xec8726cb) == 0x840abf27
    ensures Add(Add(Add(Sigma1(0x0c4763f2), 0x24641522), Sigma0(0xd3b7973b)), 0x702138a4) == 0x7a290d5d
    ensures Add(Add(Add(Sigma1(0x840abf27), 0x9f47bf94), Sigma0(0x93f5997f)), 0xd3b7973b) == 0x065c43da
  {
  }

  lemma Expansion48()
    ensures Add(Add(Add(Sigma1(0x7a290d5d), 0xf0a64f5a), Sigma0(0x3b68ba73)), 0x93f5997f) == 0xfb3e89cb
    ensures Add(Add(Add(Sigma1(0x065c43da), 0x3e246a79), Sigma0(0xaff4ffc1)), 0x3b68ba73) == 0xcc7617db
    ensures Add(Add(Add(Sigma1(0xfb3e89cb), 0x27333ba3), Sigma0(0xf10a5c62)), 0xaff4ffc1) == 0xb9e66c34
    ensures Add(Add(Add(Sigma1(0xcc7617db), 0x0c4763f2), Sigma0(0x0a8b3996)), 0xf10a5c62) == 0xa9993667
    ensures Add(Add(Add(Sigma1(0xb9e66c34), 0x840abf27), Sigma0(0x72af830a)), 0x0a8b3996) == 0x84badedd
    ensures Add(Add(Add(Sigma1(0xa9993667), 0x7a290d5d), Sigma0(0x9409e33e)), 0x72af830a) == 0xc21462bc
    ensures Add(Add(Add(Sigma1(0x84badedd), 0x065c43da), Sigma0(0x24641522)), 0x9409e33e) == 0x1487472c
    ensures Add(Add(Add(Sigma1(0xc21462bc), 0xfb3e89cb), Sigma0(0x9f47bf94)), 0x24641522) == 0xb20f7a99
    ensures Add(Add(Add(Sigma1(0x1487472c), 0xcc7617db), Sigma0(0xf0a64f5a)), 0x9f47bf94) == 0xef57b9cd
    ensures Add(Add(Add(Sigma1(0xb20f7a99), 0xb9e66c34), Sigma0(0x3e246a79)), 0xf0a64f5a) == 0xebe6b238
    ensures Add(Add(Add(Sigma1(0xef57b9cd), 0xa9993667), Sigma0(0x27333ba3)), 0x3e246a79) == 0x9fe3095e
    ensures Add(Add(Add(Sigma1(0xebe6b238), 0x84badedd), Sigma0(0x0c4763f2)), 0x27333ba3) == 0x78bc8d4b
    ensures Add(Add(Add(Sigma1(0x9fe3095e), 0xc21462bc), Sigma0(0x840abf27)), 0x0c4763f2) == 0xa43fcf15
    ensures Add(Add(Add(Sigma1(0x78bc8d4b), 0x1487472c), Sigma0(0x7a290d5d)), 0x840abf27) == 0x668b2ff8
    ensures Add(Add(Add(Sigma1(0xa43fcf15), 0xb20f7a99), Sigma0(0x065c43da)), 0x7a290d5d) == 0xeeaba2cc
    ensures Add(Add(Add(Sigma1(0x668b2ff8), 0xef57b9cd), Sigma0(0xfb3e89cb)), 0x065c43da) == 0x12b1edeb
  {
  }

  lemma Words0(m: seq<Word>, t: nat)
    requires IsBlock(m) && t == 0
    ensures W(m, t) == 0x61626380 && W(m, t + 1) == 0x00000000
    ensures W(m, t + 2) == 0x00000000 && W(m, t + 3) == 0x00000000
    ensures W(m, t + 4) == 0x00000000 && W(m, t + 5) == 0x00000000
    ensures W(m, t + 6) == 0x00000000 && W(m, t + 7) == 0x00000000
    ensures W(m, t + 8) == 0x00000000 && W(m, t + 9) == 0x00000000
    ensures W(m, t + 10) == 0x00000000 && W(m, t + 11) == 0x00000000
    ensures W(m, t + 12) == 0x00000000 && W(m, t + 13) == 0x00000000
    ensures W(m, t + 14) == 0x00000000 && W(m, t + 15) == 0x00000018
  {
    hide Add, Sigma0, Sigma1;
  }

  lemma Words16(m: seq<Word>, t: nat)
    requires IsBlock(m) && t == 16
    ensures W(m, t) == 0x61626380 && W(m, t + 1) == 0x000f0000
    ensures W(m, t + 2) == 0x7da86405 && W(m, t + 3) == 0x600003c6
    ensures W(m, t + 4) == 0x3e9d7b78 && W(m, t + 5) == 0x0183fc00
    ensures W(m, t + 6) == 0x12dcbfdb && W(m, t + 7) == 0xe2e2c38e
    ensures W(m, t + 8) == 0xc8215c1a && W(m, t + 9) == 0xb73679a2
    ensures W(m, t + 10) == 0xe5bc3909 && W(m, t + 11) == 0x32663c5b
    ensures W(m, t + 12) == 0x9d209d67 && W(m, t + 13) == 0xec8726cb
    ensures W(m, t + 14) == 0x702138a4 && W(m, t + 15) == 0xd3b7973b
  {
    assert |m| == 16;
    hide W, Add, Sigma0, Sigma1, IsBlock;
    Words0(m, t - 16);
    Expansion16();
    Streaming.ScheduleStep(m, t);
    Streaming.ScheduleStep(m, t + 1);
    Streaming.ScheduleStep(m, t + 2);
    Streaming.ScheduleStep(m, t + 3);
    Streaming.ScheduleStep(m, t + 4);
    Streaming.ScheduleStep(m, t + 5);
    Streaming.ScheduleStep(m, t + 6);
    Streaming.ScheduleStep(m, t + 7);
    Streaming.ScheduleStep(m, t + 8);
    Streaming.ScheduleStep(m, t + 9);
    Streaming.ScheduleStep(m, t + 10);
    Streaming.ScheduleStep(m, t + 11);
    Streaming.ScheduleStep(m, t + 12);
    Streaming.ScheduleStep(m, t + 13);
    Streaming.ScheduleStep(m, t + 14);
    Streaming.ScheduleStep(m, t + 15);
  }

  lemma Words32(m: seq<Word>, t: nat)
    requires IsBlock(m) && t == 32
    ensures W(m, t) == 0x93f5997f && W(m, t + 1) == 0x3b68ba73
    ensures W(m, t + 2) == 0xaff4ffc1 && W(m, t + 3) == 0xf10a5c62
    ensures W(m, t + 4) == 0x0a8b3996 && W(m, t + 5) == 0x72af830a
    ensures W(m, t + 6) == 0x9409e33e && W(m, t + 7) == 0x24641522
    ensures W(m, t + 8) == 0x9f47bf94 && W(m, t + 9) == 0xf0a64f5a
    ensures W(m, t + 10) == 0x3e246a79 && W(m, t + 11) == 0x27333ba3
    ensures W(m, t + 12) == 0x0c4763f2 && W(m, t + 13) == 0x840abf27
    ensures W(m, t + 14) == 0x7a290d5d && W(m, t + 15) == 0x065c43da
  {
    assert |m| == 16;
    hide W, Add, Sigma0, Sigma1, IsBlock;
    Words16(m, t - 16);
    Expansion32();
    Streaming.ScheduleStep(m, t);
    Streaming.ScheduleStep(m, t + 1);
    Streaming.ScheduleStep(m, t + 2);
    Streaming.ScheduleStep(m, t + 3);
    Streaming.ScheduleStep(m, t + 4);
    Streaming.ScheduleStep(m, t + 5);
    Streaming.ScheduleStep(m, t + 6);
    Streaming.ScheduleStep(m, t + 7);
    Streaming.ScheduleStep(m, t + 8);
    Streaming.ScheduleStep(m, t + 9);
    Streaming.ScheduleStep(m, t + 10);
    Streaming.ScheduleStep(m, t + 11);
    Streaming.ScheduleStep(m, t + 12);
    Streaming.ScheduleStep(m, t + 13);
    Streaming.ScheduleStep(m, t + 14);
    Streaming.ScheduleStep(m, t + 15);
  }

  lemma Words48(m: seq<Word>, t: nat)
    requires IsBlock(m) && t == 48
    ensures W(m, t) == 0xfb3e89cb && W(m, t + 1) == 0xcc7617db
    ensures W(m, t + 2) == 0xb9e66c34 && W(m, t + 3) == 0xa9993667
    ensures W(m, t + 4) == 0x84badedd && W(m, t + 5) == 0xc21462bc
    ensures W(m, t + 6) == 0x1487472c && W(m, t + 7) == 0xb20f7a99
    ensures W(m, t + 8) == 0xef57b9cd && W(m, t + 9) == 0xebe6b238
    ensures W(m, t + 10) == 0x9fe3095e && W(m, t + 11) == 0x78bc8d4b
    ensures W(m, t + 12) == 0xa43fcf15 && W(m, t + 13) == 0x668b2ff8
    ensures W(m, t + 14) == 0xeeaba2cc && W(m, t + 15) == 0x12b1edeb
  {
    assert |m| == 16;
    hide W, Add, Sigma0, Sigma1, IsBlock;
    Words32(m, t - 16);
    Expansion48();
    Streaming.ScheduleStep(m, t);
    Streaming.ScheduleStep(m, t + 1);
    Streaming.ScheduleStep(m, t + 2);
    Streaming.ScheduleStep(m, t + 3);
    Streaming.ScheduleStep(m, t + 4);
    Streaming.ScheduleStep(m, t + 5);
    Streaming.ScheduleStep(m, t + 6);
    Streaming.ScheduleStep(m, t + 7);
    Streaming.ScheduleStep(m, t + 8);
    Streaming.ScheduleStep(m, t + 9);
    Streaming.ScheduleStep(m, t + 10);
    Streaming.ScheduleStep(m, t + 11);
    Streaming.ScheduleStep(m, t + 12);
    Streaming.ScheduleStep(m, t + 13);
    Streaming.ScheduleStep(m, t + 14);
    Streaming.ScheduleStep(m, t + 15);
  }

  // ----- the rounds -----

  lemma Turns0()
    ensures Round(Regs(0x6a09e667, 0xbb67ae85, 0x3c6ef372, 0xa54ff53a, 0x510e527f, 0x9b05688c, 0x1f83d9ab, 0x5be0cd19), 0x428a2f98, 0x61626380)
         == Regs(0x5d6aebcd, 0x6a09e667, 0xbb67ae85, 0x3c6ef372, 0xfa2a4622, 0x510e527f, 0x9b05688c, 0x1f83d9ab)
    ensures Round(Regs(0x5d6aebcd, 0x6a09e667, 0xbb67ae85, 0x3c6ef372, 0xfa2a4622, 0x510e527f, 0x9b05688c, 0x1f83d9ab), 0x71374491, 0x00000000)
         == Regs(0x5a6ad9ad, 0x5d6aebcd, 0x6a09e667, 0xbb67ae85, 0x78ce7989, 0xfa2a4622, 0x510e527f, 0x9b05688c)
    ensures Round(Regs(0x5a6ad9ad, 0x5d6aebcd, 0x6a09e667, 0xbb67ae85, 0x78ce7989, 0xfa2a4622, 0x510e527f, 0x9b05688c), 0xb5c0fbcf, 0x00000000)
         == Regs(0xc8c347a7, 0x5a6ad9ad, 0x5d6aebcd, 0x6a09e667, 0xf92939eb, 0x78ce7989, 0xfa2a4622, 0x510e527f)
    ensures Round(Regs(0xc8c347a7, 0x5a6ad9ad, 0x5d6aebcd, 0x6a09e667, 0xf92939eb, 0x78ce7989, 0xfa2a4622, 0x510e527f), 0xe9b5dba5, 0x00000000)
         == Regs(0xd550f666, 0xc8c347a7, 0x5a6ad9ad, 0x5d6aebcd, 0x24e00850, 0xf92939eb, 0x78ce7989, 0xfa2a4622)
    ensures Round(Regs(0xd550f666, 0xc8c347a7, 0x5a6ad9ad, 0x5d6aebcd, 0x24e00850, 0xf92939eb, 0x78ce7989, 0xfa2a4622), 0x3956c25b, 0x00000000)
         == Regs(0x04409a6a, 0xd550f666, 0xc8c347a7, 0x5a6ad9ad, 0x43ada245, 0x24e00850, 0xf92939eb, 0x78ce7989)
    ensures Round(Regs(0x04409a6a, 0xd550f666, 0xc8c347a7, 0x5a6ad9ad, 0x43ada245, 0x24e00850, 0xf92939eb, 0x78ce7989), 0x59f111f1, 0x00000000)
         == Regs(0x2b4209f5, 0x04409a6a, 0xd550f666, 0xc8c347a7, 0x714260ad, 0x43ada245, 0x24e00850, 0xf92939eb)
    ensures Round(Regs(0x2b4209f5, 0x04409a6a, 0xd550f666, 0xc8c347a7, 0x714260ad, 0x43ada245, 0x24e00850, 0xf92939eb), 0x923f82a4, 0x00000000)
         == Regs(0xe5030380, 0x2b4209f5, 0x04409a6a, 0xd550f666, 0x9b27a401, 0x714260ad, 0x43ada245, 0x24e00850)
    ensures Round(Regs(0xe5030380, 0x2b4209f5, 0x04409a6a, 0xd550f666, 0x9b27a401, 0x714260ad, 0x43ada245, 0x24e00850), 0xab1c5ed5, 0x00000000)
         == Regs(0x85a07b5f, 0xe5030380, 0x2b4209f5, 0x04409a6a, 0x0c657a79, 0x9b27a401, 0x714260ad, 0x43ada245)
    ensures Round(Regs(0x85a07b5f, 0xe5030380, 0x2b4209f5, 0x04409a6a, 0x0c657a79, 0x9b27a401, 0x714260ad, 0x43ada245), 0xd807aa98, 0x00000000)
         == Regs(0x8e04ecb9, 0x85a07b5f, 0xe5030380, 0x2b4209f5, 0x32ca2d8c, 0x0c657a79, 0x9b27a401, 0x714260ad)
    ensures Round(Regs(0x8e04ecb9, 0x85a07b5f, 0xe5030380, 0x2b4209f5, 0x32ca2d8c, 0x0c657a79, 0x9b27a401, 0x714260ad), 0x12835b01, 0x00000000)
         == Regs(0x8c87346b, 0x8e04ecb9, 0x85a07b5f, 0xe5030380, 0x1cc92596, 0x32ca2d8c, 0x0c657a79, 0x9b27a401)
    ensures Round(Regs(0x8c87346b, 0x8e04ecb9, 0x85a07b5f, 0xe5030380, 0x1cc92596, 0x32ca2d8c, 0x0c657a79, 0x9b27a401), 0x243185be, 0x00000000)
         == Regs(0x4798a3f4, 0x8c87346b, 0x8e04ecb9, 0x85a07b5f, 0x436b23e8, 0x1cc92596, 0x32ca2d8c, 0x0c657a79)
    ensures Round(Regs(0x4798a3f4, 0x8c87346b, 0x8e04ecb9, 0x85a07b5f, 0x436b23e8, 0x1cc92596, 0x32ca2d8c, 0x0c657a79), 0x550c7dc3, 0x00000000)
         == Regs(0xf71fc5a9, 0x4798a3f4, 0x8c87346b, 0x8e04ecb9, 0x816fd6e9, 0x436b23e8, 0x1cc92596, 0x32ca2d8c)
    ensures Round(Regs(0xf71fc5a9, 0x4798a3f4, 0x8c87346b, 0x8e04ecb9, 0x816fd6e9, 0x436b23e8, 0x1cc92596, 0x32ca2d8c), 0x72be5d74, 0x00000000)
         == Regs(0x87912990, 0xf71fc5a9, 0x4798a3f4, 0x8c87346b, 0x1e578218, 0x816fd6e9, 0x436b23e8, 0x1cc92596)
    ensures Round(Regs(0x87912990, 0xf71fc5a9, 0x4798a3f4, 0x8c87346b, 0x1e578218, 0x816fd6e9, 0x436b23e8, 0x1cc92596), 0x80deb1fe, 0x00000000)
         == Regs(0xd932eb16, 0x87912990, 0xf71fc5a9, 0x4798a3f4, 0x745a48de, 0x1e578218, 0x816fd6e9, 0x436b23e8)
    ensures Round(Regs(0xd932eb16, 0x87912990, 0xf71fc5a9, 0x4798a3f4, 0x745a48de, 0x1e578218, 0x816fd6e9, 0x436b23e8), 0x9bdc06a7, 0x00000000)
         == Regs(0xc0645fde, 0xd932eb16, 0x87912990, 0xf71fc5a9, 0x0b92f20c, 0x745a48de, 0x1e578218, 0x816fd6e9)
    ensures Round(Regs(0xc0645fde, 0xd932eb16, 0x87912990, 0xf71fc5a9, 0x0b92f20c, 0x745a48de, 0x1e578218, 0x816fd6e9), 0xc19bf174, 0x00000018)
         == Regs(0xb0fa238e, 0xc0645fde, 0xd932eb16, 0x87912990, 0x07590dcd, 0x0b92f20c, 0x745a48de, 0x1e578218)
  {
  }

  lemma Turns16()
    ensures Round(Regs(0xb0fa238e, 0xc0645fde, 0xd932eb16, 0x87912990, 0x07590dcd, 0x0b92f20c, 0x745a48de, 0x1e578218), 0xe49b69c1, 0x61626380)
         == Regs(0x21da9a9b, 0xb0fa238e, 0xc0645fde, 0xd932eb16, 0x8034229c, 0x07590dcd, 0x0b92f20c, 0x745a48de)
    ensures Round(Regs(0x21da9a9b, 0xb0fa238e, 0xc0645fde, 0xd932eb16, 0x8034229c, 0x07590dcd, 0x0b92f20c, 0x745a48de), 0xefbe4786, 0x000f0000)
         == Regs(0xc2fbd9d1, 0x21da9a9b, 0xb0fa238e, 0xc0645fde, 0x846ee454, 0x8034229c, 0x07590dcd, 0x0b92f20c)
    ensures Round(Regs(0xc2fbd9d1, 0x21da9a9b, 0xb0fa238e, 0xc0645fde, 0x846ee454, 0x8034229c, 0x07590dcd, 0x0b92f20c), 0x0fc19dc6, 0x7da86405)
         == Regs(0xfe777bbf, 0xc2fbd9d1, 0x21da9a9b, 0xb0fa238e, 0xcc899961, 0x846ee454, 0x8034229c, 0x07590dcd)
    ensures Round(Regs(0xfe777bbf, 0xc2fbd9d1, 0x21da9a9b, 0xb0fa238e, 0xcc899961, 0x846ee454, 0x8034229c, 0x07590dcd), 0x240ca1cc, 0x600003c6)
         == Regs(0xe1f20c33, 0xfe777bbf, 0xc2fbd9d1, 0x21da9a9b, 0xb0638179, 0xcc899961, 0x846ee454, 0x8034229c)
    ensures Round(Regs(0xe1f20c33, 0xfe777bbf, 0xc2fbd9d1, 0x21da9a9b, 0xb0638179, 0xcc899961, 0x846ee454, 0x8034229c), 0x2de92c6f, 0x3e9d7b78)
         == Regs(0x9dc68b63, 0xe1f20c33, 0xfe777bbf, 0xc2fbd9d1, 0x8ada8930, 0xb0638179, 0xcc899961, 0x846ee454)
    ensures Round(Regs(0x9dc68b63, 0xe1f20c33, 0xfe777bbf, 0xc2fbd9d1, 0x8ada8930, 0xb0638179, 0xcc899961, 0x846ee454), 0x4a7484aa, 0x0183fc00)
         == Regs(0xc2606d6d, 0x9dc68b63, 0xe1f20c33, 0xfe777bbf, 0xe1257970, 0x8ada8930, 0xb0638179, 0xcc899961)
    ensures Round(Regs(0xc2606d6d, 0x9dc68b63, 0xe1f20c33, 0xfe777bbf, 0xe1257970, 0x8ada8930, 0xb0638179, 0xcc899961), 0x5cb0a9dc, 0x12dcbfdb)
         == Regs(0xa7a3623f, 0xc2606d6d, 0x9dc68b63, 0xe1f20c33, 0x49f5114a, 0xe1257970, 0x8ada8930, 0xb0638179)
    ensures Round(Regs(0xa7a3623f, 0xc2606d6d, 0x9dc68b63, 0xe1f20c33, 0x49f5114a, 0xe1257970, 0x8ada8930, 0xb0638179), 0x76f988da, 0xe2e2c38e)
         == Regs(0xc5d53d8d, 0xa7a3623f, 0xc2606d6d, 0x9dc68b63, 0xaa47c347, 0x49f5114a, 0xe1257970, 0x8ada8930)
    ensures Round(Regs(0xc5d53d8d, 0xa7a3623f, 0xc2606d6d, 0x9dc68b63, 0xaa47c347, 0x49f5114a, 0xe1257970, 0x8ada8930), 0x983e5152, 0xc8215c1a)
         == Regs(0x1c2c2838, 0xc5d53d8d, 0xa7a3623f, 0xc2606d6d, 0x2823ef91, 0xaa47c347, 0x49f5114a, 0xe1257970)
    ensures Round(Regs(0x1c2c2838, 0xc5d53d8d, 0xa7a3623f, 0xc2606d6d, 0x2823ef91, 0xaa47c347, 0x49f5114a, 0xe1257970), 0xa831c66d, 0xb73679a2)
         == Regs(0xcde8037d, 0x1c2c2838, 0xc5d53d8d, 0xa7a3623f, 0x14383d8e, 0x2823ef91, 0xaa47c347, 0x49f5114a)
    ensures Round(Regs(0xcde8037d, 0x1c2c2838, 0xc5d53d8d, 0xa7a3623f, 0x14383d8e, 0x2823ef91, 0xaa47c347, 0x49f5114a), 0xb00327c8, 0xe5bc3909)
         == Regs(0xb62ec4bc, 0xcde8037d, 0x1c2c2838, 0xc5d53d8d, 0xc74c6516, 0x14383d8e, 0x2823ef91, 0xaa47c347)
    ensures Round(Regs(0xb62ec4bc, 0xcde8037d, 0x1c2c2838, 0xc5d53d8d, 0xc74c6516, 0x14383d8e, 0x2823ef91, 0xaa47c347), 0xbf597fc7, 0x32663c5b)
         == Regs(0x77d37528, 0xb62ec4bc, 0xcde8037d, 0x1c2c2838, 0xedffbff8, 0xc74c6516, 0x14383d8e, 0x2823ef91)
    ensures Round(Regs(0x77d37528, 0xb62ec4bc, 0xcde8037d, 0x1c2c2838, 0xedffbff8, 0xc74c6516, 0x14383d8e, 0x2823ef91), 0xc6e00bf3, 0x9d209d67)
         == Regs(0x363482c9, 0x77d37528, 0xb62ec4bc, 0xcde8037d, 0x6112a3b7, 0xedffbff8, 0xc74c6516, 0x14383d8e)
    ensures Round(Regs(0x363482c9, 0x77d37528, 0xb62ec4bc, 0xcde8037d, 0x6112a3b7, 0xedffbff8, 0xc74c6516, 0x14383d8e), 0xd5a79147, 0xec8726cb)
         == Regs(0xa0060b30, 0x363482c9, 0x77d37528, 0xb62ec4bc, 0xade79437, 0x6112a3b7, 0xedffbff8, 0xc74c6516)
    ensures Round(Regs(0xa0060b30, 0x363482c9, 0x77d37528, 0xb62ec4bc, 0xade79437, 0x6112a3b7, 0xedffbff8, 0xc74c6516), 0x06ca6351, 0x702138a4)
         == Regs(0xea992a22, 0xa0060b30, 0x363482c9, 0x77d37528, 0x0109ab3a, 0xade79437, 0x6112a3b7, 0xedffbff8)
    ensures Round(Regs(0xea992a22, 0xa0060b30, 0x363482c9, 0x77d37528, 0x0109ab3a, 0xade79437, 0x6112a3b7, 0xedffbff8), 0x14292967, 0xd3b7973b)
         == Regs(0x73b33bf5, 0xea992a22, 0xa0060b30, 0x363482c9, 0xba591112, 0x0109ab3a, 0xade79437, 0x6112a3b7)
  {
  }

  lemma Turns32()
    ensures Round(Regs(0x73b33bf5, 0xea992a22, 0xa0060b30, 0x363482c9, 0xba591112, 0x0109ab3a, 0xade79437, 0x6112a3b7), 0x27b70a85, 0x93f5997f)
         == Regs(0x98e12507, 0x73b33bf5, 0xea992a22, 0xa0060b30, 0x9cd9f5f6, 0xba591112, 0x0109ab3a, 0xade79437)
    ensures Round(Regs(0x98e12507, 0x73b33bf5, 0xea992a22, 0xa0060b30, 0x9cd9f5f6, 0xba591112, 0x0109ab3a, 0xade79437), 0x2e1b2138, 0x3b68ba73)
         == Regs(0xfe604df5, 0x98e12507, 0x73b33bf5, 0xea992a22, 0x59249dd3, 0x9cd9f5f6, 0xba591112, 0x0109ab3a)
    ensures Round(Regs(0xfe604df5, 0x98e12507, 0x73b33bf5, 0xea992a22, 0x59249dd3, 0x9cd9f5f6, 0xba591112, 0x0109ab3a), 0x4d2c6dfc, 0xaff4ffc1)
         == Regs(0xa9a7738c, 0xfe604df5, 0x98e12507, 0x73b33bf5, 0x085f3833, 0x59249dd3, 0x9cd9f5f6, 0xba591112)
    ensures Round(Regs(0xa9a7738c, 0xfe604df5, 0x98e12507, 0x73b33bf5, 0x085f3833, 0x59249dd3, 0x9cd9f5f6, 0xba591112), 0x53380d13, 0xf10a5c62)
         == Regs(0x65a0cfe4, 0xa9a7738c, 0xfe604df5, 0x98e12507, 0xf4b002d6, 0x085f3833, 0x59249dd3, 0x9cd9f5f6)
    ensures Round(Regs(0x65a0cfe4, 0xa9a7738c, 0xfe604df5, 0x98e12507, 0xf4b002d6, 0x085f3833, 0x59249dd3, 0x9cd9f5f6), 0x650a7354, 0x0a8b3996)
         == Regs(0x41a65cb1, 0x65a0cfe4, 0xa9a7738c, 0xfe604df5, 0x0772a26b, 0xf4b002d6, 0x085f3833, 0x59249dd3)
    ensures Round(Regs(0x41a65cb1, 0x65a0cfe4, 0xa9a7738c, 0xfe604df5, 0x0772a26b, 0xf4b002d6, 0x085f3833, 0x59249dd3), 0x766a0abb, 0x72af830a)
         == Regs(0x34df1604, 0x41a65cb1, 0x65a0cfe4, 0xa9a7738c, 0xa507a53d, 0x0772a26b, 0xf4b002d6, 0x085f3833)
    ensures Round(Regs(0x34df1604, 0x41a65cb1, 0x65a0cfe4, 0xa9a7738c, 0xa507a53d, 0x0772a26b, 0xf4b002d6, 0x085f3833), 0x81c2c92e, 0x9409e33e)
         == Regs(0x6dc57a8a, 0x34df1604, 0x41a65cb1, 0x65a0cfe4, 0xf0781bc8, 0xa507a53d, 0x0772a26b, 0xf4b002d6)
    ensures Round(Regs(0x6dc57a8a, 0x34df1604, 0x41a65cb1, 0x65a0cfe4, 0xf0781bc8, 0xa507a53d, 0x0772a26b, 0xf4b002d6), 0x92722c85, 0x24641522)
         == Regs(0x79ea687a, 0x6dc57a8a, 0x34df1604, 0x41a65cb1, 0x1efbc0a0, 0xf0781bc8, 0xa507a53d, 0x0772a26b)
    ensures Round(Regs(0x79ea687a, 0x6dc57a8a, 0x34df1604, 0x41a65cb1, 0x1efbc0a0, 0xf0781bc8, 0xa507a53d, 0x0772a26b), 0xa2bfe8a1, 0x9f47bf94)
         == Regs(0xd6670766, 0x79ea687a, 0x6dc57a8a, 0x34df1604, 0x26352d63, 0x1efbc0a0, 0xf0781bc8, 0xa507a53d)
    ensures Round(Regs(0xd6670766, 0x79ea687a, 0x6dc57a8a, 0x34df1604, 0x26352d63, 0x1efbc0a0, 0xf0781bc8, 0xa507a53d), 0xa81a664b, 0xf0a64f5a)
         == Regs(0xdf46652f, 0xd6670766, 0x79ea687a, 0x6dc57a8a, 0x838b2711, 0x26352d63, 0x1efbc0a0, 0xf0781bc8)
    ensures Round(Regs(0xdf46652f, 0xd6670766, 0x79ea687a, 0x6dc57a8a, 0x838b2711, 0x26352d63, 0x1efbc0a0, 0xf0781bc8), 0xc24b8b70, 0x3e246a79)
         == Regs(0x17aa0dfe, 0xdf46652f, 0xd6670766, 0x79ea687a, 0xdecd4715, 0x838b2711, 0x26352d63, 0x1efbc0a0)
    ensures Round(Regs(0x17aa0dfe, 0xdf46652f, 0xd6670766, 0x79ea687a, 0xdecd4715, 0x838b2711, 0x26352d63, 0x1efbc0a0), 0xc76c51a3, 0x27333ba3)
         == Regs(0x9d4baf93, 0x17aa0dfe, 0xdf46652f, 0xd6670766, 0xfda24c2e, 0xdecd4715, 0x838b2711, 0x26352d63)
    ensures Round(Regs(0x9d4baf93, 0x17aa0dfe, 0xdf46652f, 0xd6670766, 0xfda24c2e, 0xdecd4715, 0x838b2711, 0x26352d63), 0xd192e819, 0x0c4763f2)
         == Regs(0x26628815, 0x9d4baf93, 0x17aa0dfe, 0xdf46652f, 0xa80f11f0, 0xfda24c2e, 0xdecd4715, 0x838b2711)
    ensures Round(Regs(0x26628815, 0x9d4baf93, 0x17aa0dfe, 0xdf46652f, 0xa80f11f0, 0xfda24c2e, 0xdecd4715, 0x838b2711), 0xd6990624, 0x840abf27)
         == Regs(0x72ab4b91, 0x26628815, 0x9d4baf93, 0x17aa0dfe, 0xb7755da1, 0xa80f11f0, 0xfda24c2e, 0xdecd4715)
    ensures Round(Regs(0x72ab4b91, 0x26628815, 0x9d4baf93, 0x17aa0dfe, 0xb7755da1, 0xa80f11f0, 0xfda24c2e, 0xdecd4715), 0xf40e3585, 0x7a290d5d)
         == Regs(0xa14c14b0, 0x72ab4b91, 0x26628815, 0x9d4baf93, 0xd57b94a9, 0xb7755da1, 0xa80f11f0, 0xfda24c2e)
    ensures Round(Regs(0xa14c14b0, 0x72ab4b91, 0x26628815, 0x9d4baf93, 0xd57b94a9, 0xb7755da1, 0xa80f11f0, 0xfda24c2e), 0x106aa070, 0x065c43da)
         == Regs(0x4172328d, 0xa14c14b0, 0x72ab4b91, 0x26628815, 0xfecf0bc6, 0xd57b94a9, 0xb7755da1, 0xa80f11f0)
  {
  }

  lemma Turns48()
    ensures Round(Regs(0x4172328d, 0xa14c14b0, 0x72ab4b91, 0x26628815, 0xfecf0bc6, 0xd57b94a9, 0xb7755da1, 0xa80f11f0), 0x19a4c116, 0xfb3e89cb)
         == Regs(0x05757ceb, 0x4172328d, 0xa14c14b0, 0x72ab4b91, 0xbd714038, 0xfecf0bc6, 0xd57b94a9, 0xb7755da1)
    ensures Round(Regs(0x05757ceb, 0x4172328d, 0xa14c14b0, 0x72ab4b91, 0xbd714038, 0xfecf0bc6, 0xd57b94a9, 0xb7755da1), 0x1e376c08, 0xcc7617db)
         == Regs(0xf11bfaa8, 0x05757ceb, 0x4172328d, 0xa14c14b0, 0x6e5c390c, 0xbd714038, 0xfecf0bc6, 0xd57b94a9)
    ensures Round(Regs(0xf11bfaa8, 0x05757ceb, 0x4172328d, 0xa14c14b0, 0x6e5c390c, 0xbd714038, 0xfecf0bc6, 0xd57b94a9), 0x2748774c, 0xb9e66c34)
         == Regs(0x7a0508a1, 0xf11bfaa8, 0x05757ceb, 0x4172328d, 0x52f1ccf7, 0x6e5c390c, 0xbd714038, 0xfecf0bc6)
    ensures Round(Regs(0x7a0508a1, 0xf11bfaa8, 0x05757ceb, 0x4172328d, 0x52f1ccf7, 0x6e5c390c, 0xbd714038, 0xfecf0bc6), 0x34b0bcb5, 0xa9993667)
         == Regs(0x886e7a22, 0x7a0508a1, 0xf11bfaa8, 0x05757ceb, 0x49231c1e, 0x52f1ccf7, 0x6e5c390c, 0xbd714038)
    ensures Round(Regs(0x886e7a22, 0x7a0508a1, 0xf11bfaa8, 0x05757ceb, 0x49231c1e, 0x52f1ccf7, 0x6e5c390c, 0xbd714038), 0x391c0cb3, 0x84badedd)
         == Regs(0x101fd28f, 0x886e7a22, 0x7a0508a1, 0xf11bfaa8, 0x529e7d00, 0x49231c1e, 0x52f1ccf7, 0x6e5c390c)
    ensures Round(Regs(0x101fd28f, 0x886e7a22, 0x7a0508a1, 0xf11bfaa8, 0x529e7d00, 0x49231c1e, 0x52f1ccf7, 0x6e5c390c), 0x4ed8aa4a, 0xc21462bc)
         == Regs(0xf5702fdb, 0x101fd28f, 0x886e7a22, 0x7a0508a1, 0x9f4787c3, 0x529e7d00, 0x49231c1e, 0x52f1ccf7)
    ensures Round(Regs(0xf5702fdb, 0x101fd28f, 0x886e7a22, 0x7a0508a1, 0x9f4787c3, 0x529e7d00, 0x49231c1e, 0x52f1ccf7), 0x5b9cca4f, 0x1487472c)
         == Regs(0x3ec45cdb, 0xf5702fdb, 0x101fd28f, 0x886e7a22, 0xe50e1b4f, 0x9f4787c3, 0x529e7d00, 0x49231c1e)
    ensures Round(Regs(0x3ec45cdb, 0xf5702fdb, 0x101fd28f, 0x886e7a22, 0xe50e1b4f, 0x9f4787c3, 0x529e7d00, 0x49231c1e), 0x682e6ff3, 0xb20f7a99)
         == Regs(0x38cc9913, 0x3ec45cdb, 0xf5702fdb, 0x101fd28f, 0x54cb266b, 0xe50e1b4f, 0x9f4787c3, 0x529e7d00)
    ensures Round(Regs(0x38cc9913, 0x3ec45cdb, 0xf5702fdb, 0x101fd28f, 0x54cb266b, 0xe50e1b4f, 0x9f4787c3, 0x529e7d00), 0x748f82ee, 0xef57b9cd)
         == Regs(0xfcd1887b, 0x38cc9913, 0x3ec45cdb, 0xf5702fdb, 0x9b5e906c, 0x54cb266b, 0xe50e1b4f, 0x9f4787c3)
    ensures Round(Regs(0xfcd1887b, 0x38cc9913, 0x3ec45cdb, 0xf5702fdb, 0x9b5e906c, 0x54cb266b, 0xe50e1b4f, 0x9f4787c3), 0x78a5636f, 0xebe6b238)
         == Regs(0xc062d46f, 0xfcd1887b, 0x38cc9913, 0x3ec45cdb, 0x7e44008e, 0x9b5e906c, 0x54cb266b, 0xe50e1b4f)
    ensures Round(Regs(0xc062d46f, 0xfcd1887b, 0x38cc9913, 0x3ec45cdb, 0x7e44008e, 0x9b5e906c, 0x54cb266b, 0xe50e1b4f), 0x84c87814, 0x9fe3095e)
         == Regs(0xffb70472, 0xc062d46f, 0xfcd1887b, 0x38cc9913, 0x6d83bfc6, 0x7e44008e, 0x9b5e906c, 0x54cb266b)
    ensures Round(Regs(0xffb70472, 0xc062d46f, 0xfcd1887b, 0x38cc9913, 0x6d83bfc6, 0x7e44008e, 0x9b5e906c, 0x54cb266b), 0x8cc70208, 0x78bc8d4b)
         == Regs(0xb6ae8fff, 0xffb70472, 0xc062d46f, 0xfcd1887b, 0xb21bad3d, 0x6d83bfc6, 0x7e44008e, 0x9b5e906c)
    ensures Round(Regs(0xb6ae8fff, 0xffb70472, 0xc062d46f, 0xfcd1887b, 0xb21bad3d, 0x6d83bfc6, 0x7e44008e, 0x9b5e906c), 0x90befffa, 0xa43fcf15)
         == Regs(0xb85e2ce9, 0xb6ae8fff, 0xffb70472, 0xc062d46f, 0x961f4894, 0xb21bad3d, 0x6d83bfc6, 0x7e44008e)
    ensures Round(Regs(0xb85e2ce9, 0xb6ae8fff, 0xffb70472, 0xc062d46f, 0x961f4894, 0xb21bad3d, 0x6d83bfc6, 0x7e44008e), 0xa4506ceb, 0x668b2ff8)
         == Regs(0x04d24d6c, 0xb85e2ce9, 0xb6ae8fff, 0xffb70472, 0x948d25b6, 0x961f4894, 0xb21bad3d, 0x6d83bfc6)
    ensures Round(Regs(0x04d24d6c, 0xb85e2ce9, 0xb6ae8fff, 0xffb70472, 0x948d25b6, 0x961f4894, 0xb21bad3d, 0x6d83bfc6), 0xbef9a3f7, 0xeeaba2cc)
         == Regs(0xd39a2165, 0x04d24d6c, 0xb85e2ce9, 0xb6ae8fff, 0xfb121210, 0x948d25b6, 0x961f4894, 0xb21bad3d)
    ensures Round(Regs(0xd39a2165, 0x04d24d6c, 0xb85e2ce9, 0xb6ae8fff, 0xfb121210, 0x948d25b6, 0x961f4894, 0xb21bad3d), 0xc67178f2, 0x12b1edeb)
         == Regs(0x506e3058, 0xd39a2165, 0x04d24d6c, 0xb85e2ce9, 0x5ef50f24, 0xfb121210, 0x948d25b6, 0x961f4894)
  {
  }

  lemma Rounds16(r: Regs, m: seq<Word>, t: nat)
    requires IsBlock(m) && t == 0
    requires Rounds(r, m, t)
          == Regs(0x6a09e667, 0xbb67ae85, 0x3c6ef372, 0xa54ff53a, 0x510e527f, 0x9b05688c, 0x1f83d9ab, 0x5be0cd19)
    ensures Rounds(r, m, t + 16)
         == Regs(0xb0fa238e, 0xc0645fde, 0xd932eb16, 0x87912990, 0x07590dcd, 0x0b92f20c, 0x745a48de, 0x1e578218)
  {
    hide Rounds, Round, K, W;
    Keys0(t);
    Words0(m, t);
    Turns0();
    Streaming.RoundsStep(r, m, t);
    Streaming.RoundsStep(r, m, t + 1);
    Streaming.RoundsStep(r, m, t + 2);
    Streaming.RoundsStep(r, m, t + 3);
    Streaming.RoundsStep(r, m, t + 4);
    Streaming.RoundsStep(r, m, t + 5);
    Streaming.RoundsStep(r, m, t + 6);
    Streaming.RoundsStep(r, m, t + 7);
    Streaming.RoundsStep(r, m, t + 8);
    Streaming.RoundsStep(r, m, t + 9);
    Streaming.RoundsStep(r, m, t + 10);
    Streaming.RoundsStep(r, m, t + 11);
    Streaming.RoundsStep(r, m, t + 12);
    Streaming.RoundsStep(r, m, t + 13);
    Streaming.RoundsStep(r, m, t + 14);
    Streaming.RoundsStep(r, m, t + 15);
  }

  lemma Rounds32(r: Regs, m: seq<Word>, t: nat)
    requires IsBlock(m) && t == 16
    requires Rounds(r, m, t)
          == Regs(0xb0fa238e, 0xc0645fde, 0xd932eb16, 0x87912990, 0x07590dcd, 0x0b92f20c, 0x745a48de, 0x1e578218)
    ensures Rounds(r, m, t + 16)
         == Regs(0x73b33bf5, 0xea992a22, 0xa0060b30, 0x363482c9, 0xba591112, 0x0109ab3a, 0xade79437, 0x6112a3b7)
  {
    hide Rounds, Round, K, W;
    Keys16(t);
    Words16(m, t);
    Turns16();
    Streaming.RoundsStep(r, m, t);
    Streaming.RoundsStep(r, m, t + 1);
    Streaming.RoundsStep(r, m, t + 2);
    Streaming.RoundsStep(r, m, t + 3);
    Streaming.RoundsStep(r, m, t + 4);
    Streaming.RoundsStep(r, m, t + 5);
    Streaming.RoundsStep(r, m, t + 6);
    Streaming.RoundsStep(r, m, t + 7);
    Streaming.RoundsStep(r, m, t + 8);
    Streaming.RoundsStep(r, m, t + 9);
    Streaming.RoundsStep(r, m, t + 10);
    Streaming.RoundsStep(r, m, t + 11);
    Streaming.RoundsStep(r, m, t + 12);
    Streaming.RoundsStep(r, m, t + 13);
    Streaming.RoundsStep(r, m, t + 14);
    Streaming.RoundsStep(r, m, t + 15);
  }

  lemma Rounds48(r: Regs, m: seq<Word>, t: nat)
    requires IsBlock(m) && t == 32
    requires Rounds(r, m, t)
          == Regs(0x73b33bf5, 0xea992a22, 0xa0060b30, 0x363482c9, 0xba591112, 0x0109ab3a, 0xade79437, 0x6112a3b7)
    ensures Rounds(r, m, t + 16)
         == Regs(0x4172328d, 0xa14c14b0, 0x72ab4b91, 0x26628815, 0xfecf0bc6, 0xd57b94a9, 0xb7755da1, 0xa80f11f0)
  {
    hide Rounds, Round, K, W;
    Keys32(t);
    Words32(m, t);
    Turns32();
    Streaming.RoundsStep(r, m, t);
    Streaming.RoundsStep(r, m, t + 1);
    Streaming.RoundsStep(r, m, t + 2);
    Streaming.RoundsStep(r, m, t + 3);
    Streaming.RoundsStep(r, m, t + 4);
    Streaming.RoundsStep(r, m, t + 5);
    Streaming.RoundsStep(r, m, t + 6);
    Streaming.RoundsStep(r, m, t + 7);
    Streaming.RoundsStep(r, m, t + 8);
    Streaming.RoundsStep(r, m, t + 9);
    Streaming.RoundsStep(r, m, t + 10);
    Streaming.RoundsStep(r, m, t + 11);
    Streaming.RoundsStep(r, m, t + 12);
    Streaming.RoundsStep(r, m, t + 13);
    Streaming.RoundsStep(r, m, t + 14);
    Streaming.RoundsStep(r, m, t + 15);
  }

  lemma Rounds64(r: Regs, m: seq<Word>, t: nat)
    requires IsBlock(m) && t == 48
    requires Rounds(r, m, t)
          == Regs(0x4172328d, 0xa14c14b0, 0x72ab4b91, 0x26628815, 0xfecf0bc6, 0xd57b94a9, 0xb7755da1, 0xa80f11f0)
    ensures Rounds(r, m, t + 16)
         == Regs(0x506e3058, 0xd39a2165, 0x04d24d6c, 0xb85e2ce9, 0x5ef50f24, 0xfb121210, 0x948d25b6, 0x961f4894)
  {
    hide Rounds, Round, K, W;
    Keys48(t);
    Words48(m, t);
    Turns48();
    Streaming.RoundsStep(r, m, t);
    Streaming.RoundsStep(r, m, t + 1);
    Streaming.RoundsStep(r, m, t + 2);
    Streaming.RoundsStep(r, m, t + 3);
    Streaming.RoundsStep(r, m, t + 4);
    Streaming.RoundsStep(r, m, t + 5);
    Streaming.RoundsStep(r, m, t + 6);
    Streaming.RoundsStep(r, m, t + 7);
    Streaming.RoundsStep(r, m, t + 8);
    Streaming.RoundsStep(r, m, t + 9);
    Streaming.RoundsStep(r, m, t + 10);
    Streaming.RoundsStep(r, m, t + 11);
    Streaming.RoundsStep(r, m, t + 12);
    Streaming.RoundsStep(r, m, t + 13);
    Streaming.RoundsStep(r, m, t + 14);
    Streaming.RoundsStep(r, m, t + 15);
  }

  lemma StartRegs()
    ensures |INITIAL| == 8 && RegsOf(INITIAL) == Regs(0x6a09e667, 0xbb67ae85, 0x3c6ef372, 0xa54ff53a, 0x510e527f, 0x9b05688c, 0x1f83d9ab, 0x5be0cd19)
  {
  }

  lemma NoRounds(r: Regs, m: seq<Word>)
    requires |m| == 16
    ensures Rounds(r, m, 0) == r
  {
  }

  // ----- the digest -----

  lemma Sums()
    ensures Add(0x6a09e667, 0x506e3058) == 0xba7816bf
    ensures Add(0xbb67ae85, 0xd39a2165) == 0x8f01cfea
    ensures Add(0x3c6ef372, 0x04d24d6c) == 0x414140de
    ensures Add(0xa54ff53a, 0xb85e2ce9) == 0x5dae2223
    ensures Add(0x510e527f, 0x5ef50f24) == 0xb00361a3
    ensures Add(0x9b05688c, 0xfb121210) == 0x96177a9c
    ensures Add(0x1f83d9ab, 0x948d25b6) == 0xb410ff61
    ensures Add(0x5be0cd19, 0x961f4894) == 0xf20015ad
  {
  }

  lemma StateAfter(m: seq<Word>)
    requires IsBlock(m)
    ensures Compress(INITIAL, m) == [0xba7816bf, 0x8f01cfea, 0x414140de, 0x5dae2223,
                                     0xb00361a3, 0x96177a9c, 0xb410ff61, 0xf20015ad]
  {
    hide Add, Rounds;
    StartRegs();
    var r := RegsOf(INITIAL);
    NoRounds(r, m);
    Rounds16(r, m, 0);
    Rounds32(r, m, 16);
    Rounds48(r, m, 32);
    Rounds64(r, m, 48);
    Sums();
  }

  lemma PaddedOctets()
    ensures var p := Pad(ABC);
            && |p| == BLOCK && p[..4] == [0x61, 0x62, 0x63, 0x80] && p[60..] == [0, 0, 0, 24]
            && forall i :: 4 <= i < 60 ==> p[i] == 0
  {
    hide Length64;
    LengthOctets();
  }

  lemma LengthOctets()
    ensures Length64(24) == [0, 0, 0, 0, 0, 0, 0, 24]
  {
    assert LowOctet(0) == 0 && LowOctet(24) == 24;
    hide LowOctet;
  }

  lemma PaddedWords()
    ensures BigWord(0x61, 0x62, 0x63, 0x80) == 0x6162_6380 && BigWord(0, 0, 0, 24) == 24 && BigWord(0, 0, 0, 0) == 0
  {
  }

  lemma PaddedBlock()
    ensures |Pad(ABC)| == BLOCK && IsBlock(Parse(Pad(ABC)))
  {
    hide Pad, BigWord;
    PaddedOctets();
    PaddedWords();
    var p := Pad(ABC);
    assert p[0] == p[..4][0] && p[1] == p[..4][1] && p[2] == p[..4][2] && p[3] == p[..4][3];
    assert p[60] == p[60..][0] && p[61] == p[60..][1] && p[62] == p[60..][2] && p[63] == p[60..][3];
  }

  lemma OneBlock(p: seq<Octet>)
    requires |p| == BLOCK
    ensures Blocks(p) == Compress(INITIAL, Parse(p))
  {
    hide Compress, Parse, INITIAL;
    assert p[..0] == [] && p[0..] == p;
  }

  lemma DigestOctets()
    ensures BigOctets(0xba7816bf) == [0xba, 0x78, 0x16, 0xbf]
    ensures BigOctets(0x8f01cfea) == [0x8f, 0x01, 0xcf, 0xea]
    ensures BigOctets(0x414140de) == [0x41, 0x41, 0x40, 0xde]
    ensures BigOctets(0x5dae2223) == [0x5d, 0xae, 0x22, 0x23]
    ensures BigOctets(0xb00361a3) == [0xb0, 0x03, 0x61, 0xa3]
    ensures BigOctets(0x96177a9c) == [0x96, 0x17, 0x7a, 0x9c]
    ensures BigOctets(0xb410ff61) == [0xb4, 0x10, 0xff, 0x61]
    ensures BigOctets(0xf20015ad) == [0xf2, 0x00, 0x15, 0xad]
  {
  }

  /** The whole chain of definitions, from padding to output, gives the published digest. */
  lemma DigestOfAbc()
    ensures Sha256(ABC) == [
      0xba, 0x78, 0x16, 0xbf, 0x8f, 0x01, 0xcf, 0xea,
      0x41, 0x41, 0x40, 0xde, 0x5d, 0xae, 0x22, 0x23,
      0xb0, 0x03, 0x61, 0xa3, 0x96, 0x17, 0x7a, 0x9c,
      0xb4, 0x10, 0xff, 0x61, 0xf2, 0x00, 0x15, 0xad]
  {
    hide Pad, Parse, Compress, INITIAL, IsBlock, BigOctets;
    var p := Pad(ABC);
    PaddedBlock();
    StateAfter(Parse(p));
    OneBlock(p);
    DigestOctets();
  }

}
