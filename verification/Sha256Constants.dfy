/** The constants of SHA-256: the first 32 bits of the fractional parts of the square roots of the
    first eight primes, and of the cube roots of the first sixty-four (sections 5.3.3 and 4.2.2 of
    FIPS 180-4). */
module Sha256Constants {
  import opened Octets
  import opened Words
  import opened Sha256Standard

  function Value(k: Word): nat {
    k as nat
  }

  /** `k` are the first 32 bits behind the binary point of the square root of `p`, and `i` is its
      integer part. */
  predicate SquareRoot(p: nat, i: nat, k: nat) {
    var r := 0x1_0000_0000 * i + k;
    r * r <= p * 0x1_0000_0000_0000_0000 < (r + 1) * (r + 1)
  }

  predicate CubeRoot(p: nat, i: nat, k: nat) {
    var r := 0x1_0000_0000 * i + k;
    r * r * r <= p * 0x1_0000_0000_0000_0000_0000_0000 < (r + 1) * (r + 1) * (r + 1)
  }

  lemma Squares()
    ensures SquareRoot(2, 1, 0x6a09e667)
    ensures SquareRoot(3, 1, 0xbb67ae85)
    ensures SquareRoot(5, 2, 0x3c6ef372)
    ensures SquareRoot(7, 2, 0xa54ff53a)
    ensures SquareRoot(11, 3, 0x510e527f)
    ensures SquareRoot(13, 3, 0x9b05688c)
    ensures SquareRoot(17, 4, 0x1f83d9ab)
    ensures SquareRoot(19, 4, 0x5be0cd19)
  {
  }

  lemma StartValues()
    ensures Value(0x6a09e667) == 0x6a09e667
    ensures Value(0xbb67ae85) == 0xbb67ae85
    ensures Value(0x3c6ef372) == 0x3c6ef372
    ensures Value(0xa54ff53a) == 0xa54ff53a
    ensures Value(0x510e527f) == 0x510e527f
    ensures Value(0x9b05688c) == 0x9b05688c
    ensures Value(0x1f83d9ab) == 0x1f83d9ab
    ensures Value(0x5be0cd19) == 0x5be0cd19
  {
  }

  lemma StartWords()
    ensures |INITIAL| == 8
    ensures INITIAL[0] == 0x6a09e667
    ensures INITIAL[1] == 0xbb67ae85
    ensures INITIAL[2] == 0x3c6ef372
    ensures INITIAL[3] == 0xa54ff53a
    ensures INITIAL[4] == 0x510e527f
    ensures INITIAL[5] == 0x9b05688c
    ensures INITIAL[6] == 0x1f83d9ab
    ensures INITIAL[7] == 0x5be0cd19
  {
  }

  lemma StartRoots()
    ensures |INITIAL| == 8
    ensures SquareRoot(2, 1, Value(INITIAL[0]))
    ensures SquareRoot(3, 1, Value(INITIAL[1]))
    ensures SquareRoot(5, 2, Value(INITIAL[2]))
    ensures SquareRoot(7, 2, Value(INITIAL[3]))
    ensures SquareRoot(11, 3, Value(INITIAL[4]))
    ensures SquareRoot(13, 3, Value(INITIAL[5]))
    ensures SquareRoot(17, 4, Value(INITIAL[6]))
    ensures SquareRoot(19, 4, Value(INITIAL[7]))
  {
    hide SquareRoot, Value, INITIAL;
    StartWords();
    StartValues();
    Squares();
  }

  lemma Row0()
    ensures |KEYS_0| == 16
    ensures KEYS_0[0] == 0x428a2f98 && KEYS_0[1] == 0x71374491
    ensures KEYS_0[2] == 0xb5c0fbcf && KEYS_0[3] == 0xe9b5dba5
    ensures KEYS_0[4] == 0x3956c25b && KEYS_0[5] == 0x59f111f1
    ensures KEYS_0[6] == 0x923f82a4 && KEYS_0[7] == 0xab1c5ed5
    ensures KEYS_0[8] == 0xd807aa98 && KEYS_0[9] == 0x12835b01
    ensures KEYS_0[10] == 0x243185be && KEYS_0[11] == 0x550c7dc3
    ensures KEYS_0[12] == 0x72be5d74 && KEYS_0[13] == 0x80deb1fe
    ensures KEYS_0[14] == 0x9bdc06a7 && KEYS_0[15] == 0xc19bf174
  {
  }

  lemma Row16()
    ensures |KEYS_16| == 16
    ensures KEYS_16[0] == 0xe49b69c1 && KEYS_16[1] == 0xefbe4786
    ensures KEYS_16[2] == 0x0fc19dc6 && KEYS_16[3] == 0x240ca1cc
    ensures KEYS_16[4] == 0x2de92c6f && KEYS_16[5] == 0x4a7484aa
    ensures KEYS_16[6] == 0x5cb0a9dc && KEYS_16[7] == 0x76f988da
    ensures KEYS_16[8] == 0x983e5152 && KEYS_16[9] == 0xa831c66d
    ensures KEYS_16[10] == 0xb00327c8 && KEYS_16[11] == 0xbf597fc7
    ensures KEYS_16[12] == 0xc6e00bf3 && KEYS_16[13] == 0xd5a79147
    ensures KEYS_16[14] == 0x06ca6351 && KEYS_16[15] == 0x14292967
  {
  }

  lemma Row32()
    ensures |KEYS_32| == 16
    ensures KEYS_32[0] == 0x27b70a85 && KEYS_32[1] == 0x2e1b2138
    ensures KEYS_32[2] == 0x4d2c6dfc && KEYS_32[3] == 0x53380d13
    ensures KEYS_32[4] == 0x650a7354 && KEYS_32[5] == 0x766a0abb
    ensures KEYS_32[6] == 0x81c2c92e && KEYS_32[7] == 0x92722c85
    ensures KEYS_32[8] == 0xa2bfe8a1 && KEYS_32[9] == 0xa81a664b
    ensures KEYS_32[10] == 0xc24b8b70 && KEYS_32[11] == 0xc76c51a3
    ensures KEYS_32[12] == 0xd192e819 && KEYS_32[13] == 0xd6990624
    ensures KEYS_32[14] == 0xf40e3585 && KEYS_32[15] == 0x106aa070
  {
  }

  lemma Row48()
    ensures |KEYS_48| == 16
    ensures KEYS_48[0] == 0x19a4c116 && KEYS_48[1] == 0x1e376c08
    ensures KEYS_48[2] == 0x2748774c && KEYS_48[3] == 0x34b0bcb5
    ensures KEYS_48[4] == 0x391c0cb3 && KEYS_48[5] == 0x4ed8aa4a
    ensures KEYS_48[6] == 0x5b9cca4f && KEYS_48[7] == 0x682e6ff3
    ensures KEYS_48[8] == 0x748f82ee && KEYS_48[9] == 0x78a5636f
    ensures KEYS_48[10] == 0x84c87814 && KEYS_48[11] == 0x8cc70208
    ensures KEYS_48[12] == 0x90befffa && KEYS_48[13] == 0xa4506ceb
    ensures KEYS_48[14] == 0xbef9a3f7 && KEYS_48[15] == 0xc67178f2
  {
  }

  lemma KeyRows()
    ensures |KEYS_0| == |KEYS_16| == |KEYS_32| == |KEYS_48| == 16
  {
  }

  lemma Keys0(t: nat)
    requires t == 0
    ensures K(t) == 0x428a2f98 && K(t + 1) == 0x71374491
    ensures K(t + 2) == 0xb5c0fbcf && K(t + 3) == 0xe9b5dba5
    ensures K(t + 4) == 0x3956c25b && K(t + 5) == 0x59f111f1
    ensures K(t + 6) == 0x923f82a4 && K(t + 7) == 0xab1c5ed5
    ensures K(t + 8) == 0xd807aa98 && K(t + 9) == 0x12835b01
    ensures K(t + 10) == 0x243185be && K(t + 11) == 0x550c7dc3
    ensures K(t + 12) == 0x72be5d74 && K(t + 13) == 0x80deb1fe
    ensures K(t + 14) == 0x9bdc06a7 && K(t + 15) == 0xc19bf174
  {
    KeyRows();
    hide KEYS_0, KEYS_16, KEYS_32, KEYS_48;
    Row0();
    assert forall i :: 0 <= i < 16 ==> K256[t + i] == KEYS_0[i];
  }

  lemma Keys16(t: nat)
    requires t == 16
    ensures K(t) == 0xe49b69c1 && K(t + 1) == 0xefbe4786
    ensures K(t + 2) == 0x0fc19dc6 && K(t + 3) == 0x240ca1cc
    ensures K(t + 4) == 0x2de92c6f && K(t + 5) == 0x4a7484aa
    ensures K(t + 6) == 0x5cb0a9dc && K(t + 7) == 0x76f988da
    ensures K(t + 8) == 0x983e5152 && K(t + 9) == 0xa831c66d
    ensures K(t + 10) == 0xb00327c8 && K(t + 11) == 0xbf597fc7
    ensures K(t + 12) == 0xc6e00bf3 && K(t + 13) == 0xd5a79147
    ensures K(t + 14) == 0x06ca6351 && K(t + 15) == 0x14292967
  {
    KeyRows();
    hide KEYS_0, KEYS_16, KEYS_32, KEYS_48;
    Row16();
    assert forall i :: 0 <= i < 16 ==> K256[t + i] == KEYS_16[i];
  }

  lemma Keys32(t: nat)
    requires t == 32
    ensures K(t) == 0x27b70a85 && K(t + 1) == 0x2e1b2138
    ensures K(t + 2) == 0x4d2c6dfc && K(t + 3) == 0x53380d13
    ensures K(t + 4) == 0x650a7354 && K(t + 5) == 0x766a0abb
    ensures K(t + 6) == 0x81c2c92e && K(t + 7) == 0x92722c85
    ensures K(t + 8) == 0xa2bfe8a1 && K(t + 9) == 0xa81a664b
    ensures K(t + 10) == 0xc24b8b70 && K(t + 11) == 0xc76c51a3
    ensures K(t + 12) == 0xd192e819 && K(t + 13) == 0xd6990624
    ensures K(t + 14) == 0xf40e3585 && K(t + 15) == 0x106aa070
  {
    KeyRows();
    hide KEYS_0, KEYS_16, KEYS_32, KEYS_48;
    Row32();
    assert forall i :: 0 <= i < 16 ==> K256[t + i] == KEYS_32[i];
  }

  lemma Keys48(t: nat)
    requires t == 48
    ensures K(t) == 0x19a4c116 && K(t + 1) == 0x1e376c08
    ensures K(t + 2) == 0x2748774c && K(t + 3) == 0x34b0bcb5
    ensures K(t + 4) == 0x391c0cb3 && K(t + 5) == 0x4ed8aa4a
    ensures K(t + 6) == 0x5b9cca4f && K(t + 7) == 0x682e6ff3
    ensures K(t + 8) == 0x748f82ee && K(t + 9) == 0x78a5636f
    ensures K(t + 10) == 0x84c87814 && K(t + 11) == 0x8cc70208
    ensures K(t + 12) == 0x90befffa && K(t + 13) == 0xa4506ceb
    ensures K(t + 14) == 0xbef9a3f7 && K(t + 15) == 0xc67178f2
  {
    KeyRows();
    hide KEYS_0, KEYS_16, KEYS_32, KEYS_48;
    Row48();
    assert forall i :: 0 <= i < 16 ==> K256[t + i] == KEYS_48[i];
  }

  lemma Cubes0()
    ensures CubeRoot(2, 1, 0x428a2f98)
    ensures CubeRoot(3, 1, 0x71374491)
    ensures CubeRoot(5, 1, 0xb5c0fbcf)
    ensures CubeRoot(7, 1, 0xe9b5dba5)
    ensures CubeRoot(11, 2, 0x3956c25b)
    ensures CubeRoot(13, 2, 0x59f111f1)
    ensures CubeRoot(17, 2, 0x923f82a4)
    ensures CubeRoot(19, 2, 0xab1c5ed5)
    ensures CubeRoot(23, 2, 0xd807aa98)
    ensures CubeRoot(29, 3, 0x12835b01)
    ensures CubeRoot(31, 3, 0x243185be)
    ensures CubeRoot(37, 3, 0x550c7dc3)
    ensures CubeRoot(41, 3, 0x72be5d74)
    ensures CubeRoot(43, 3, 0x80deb1fe)
    ensures CubeRoot(47, 3, 0x9bdc06a7)
    ensures CubeRoot(53, 3, 0xc19bf174)
  {
  }

  lemma Values0()
    ensures Value(0x428a2f98) == 0x428a2f98 && Value(0x71374491) == 0x71374491
    ensures Value(0xb5c0fbcf) == 0xb5c0fbcf && Value(0xe9b5dba5) == 0xe9b5dba5
    ensures Value(0x3956c25b) == 0x3956c25b && Value(0x59f111f1) == 0x59f111f1
    ensures Value(0x923f82a4) == 0x923f82a4 && Value(0xab1c5ed5) == 0xab1c5ed5
    ensures Value(0xd807aa98) == 0xd807aa98 && Value(0x12835b01) == 0x12835b01
    ensures Value(0x243185be) == 0x243185be && Value(0x550c7dc3) == 0x550c7dc3
    ensures Value(0x72be5d74) == 0x72be5d74 && Value(0x80deb1fe) == 0x80deb1fe
    ensures Value(0x9bdc06a7) == 0x9bdc06a7 && Value(0xc19bf174) == 0xc19bf174
  {
  }

  lemma Roots0(t: nat)
    requires t == 0
    ensures CubeRoot(2, 1, Value(K(t)))
    ensures CubeRoot(3, 1, Value(K(t + 1)))
    ensures CubeRoot(5, 1, Value(K(t + 2)))
    ensures CubeRoot(7, 1, Value(K(t + 3)))
    ensures CubeRoot(11, 2, Value(K(t + 4)))
    ensures CubeRoot(13, 2, Value(K(t + 5)))
    ensures CubeRoot(17, 2, Value(K(t + 6)))
    ensures CubeRoot(19, 2, Value(K(t + 7)))
    ensures CubeRoot(23, 2, Value(K(t + 8)))
    ensures CubeRoot(29, 3, Value(K(t + 9)))
    ensures CubeRoot(31, 3, Value(K(t + 10)))
    ensures CubeRoot(37, 3, Value(K(t + 11)))
    ensures CubeRoot(41, 3, Value(K(t + 12)))
    ensures CubeRoot(43, 3, Value(K(t + 13)))
    ensures CubeRoot(47, 3, Value(K(t + 14)))
    ensures CubeRoot(53, 3, Value(K(t + 15)))
  {
    hide K, Value, CubeRoot;
    Keys0(t);
    Values0();
    Cubes0();
  }

  lemma Cubes16()
    ensures CubeRoot(59, 3, 0xe49b69c1)
    ensures CubeRoot(61, 3, 0xefbe4786)
    ensures CubeRoot(67, 4, 0x0fc19dc6)
    ensures CubeRoot(71, 4, 0x240ca1cc)
    ensures CubeRoot(73, 4, 0x2de92c6f)
    ensures CubeRoot(79, 4, 0x4a7484aa)
    ensures CubeRoot(83, 4, 0x5cb0a9dc)
    ensures CubeRoot(89, 4, 0x76f988da)
    ensures CubeRoot(97, 4, 0x983e5152)
    ensures CubeRoot(101, 4, 0xa831c66d)
    ensures CubeRoot(103, 4, 0xb00327c8)
    ensures CubeRoot(107, 4, 0xbf597fc7)
    ensures CubeRoot(109, 4, 0xc6e00bf3)
    ensures CubeRoot(113, 4, 0xd5a79147)
    ensures CubeRoot(127, 5, 0x06ca6351)
    ensures CubeRoot(131, 5, 0x14292967)
  {
  }

  lemma Values16()
    ensures Value(0xe49b69c1) == 0xe49b69c1 && Value(0xefbe4786) == 0xefbe4786
    ensures Value(0x0fc19dc6) == 0x0fc19dc6 && Value(0x240ca1cc) == 0x240ca1cc
    ensures Value(0x2de92c6f) == 0x2de92c6f && Value(0x4a7484aa) == 0x4a7484aa
    ensures Value(0x5cb0a9dc) == 0x5cb0a9dc && Value(0x76f988da) == 0x76f988da
    ensures Value(0x983e5152) == 0x983e5152 && Value(0xa831c66d) == 0xa831c66d
    ensures Value(0xb00327c8) == 0xb00327c8 && Value(0xbf597fc7) == 0xbf597fc7
    ensures Value(0xc6e00bf3) == 0xc6e00bf3 && Value(0xd5a79147) == 0xd5a79147
    ensures Value(0x06ca6351) == 0x06ca6351 && Value(0x14292967) == 0x14292967
  {
  }

  lemma Roots16(t: nat)
    requires t == 16
    ensures CubeRoot(59, 3, Value(K(t)))
    ensures CubeRoot(61, 3, Value(K(t + 1)))
    ensures CubeRoot(67, 4, Value(K(t + 2)))
    ensures CubeRoot(71, 4, Value(K(t + 3)))
    ensures CubeRoot(73, 4, Value(K(t + 4)))
    ensures CubeRoot(79, 4, Value(K(t + 5)))
    ensures CubeRoot(83, 4, Value(K(t + 6)))
    ensures CubeRoot(89, 4, Value(K(t + 7)))
    ensures CubeRoot(97, 4, Value(K(t + 8)))
    ensures CubeRoot(101, 4, Value(K(t + 9)))
    ensures CubeRoot(103, 4, Value(K(t + 10)))
    ensures CubeRoot(107, 4, Value(K(t + 11)))
    ensures CubeRoot(109, 4, Value(K(t + 12)))
    ensures CubeRoot(113, 4, Value(K(t + 13)))
    ensures CubeRoot(127, 5, Value(K(t + 14)))
    ensures CubeRoot(131, 5, Value(K(t + 15)))
  {
    hide K, Value, CubeRoot;
    Keys16(t);
    Values16();
    Cubes16();
  }

  lemma Cubes32()
    ensures CubeRoot(137, 5, 0x27b70a85)
    ensures CubeRoot(139, 5, 0x2e1b2138)
    ensures CubeRoot(149, 5, 0x4d2c6dfc)
    ensures CubeRoot(151, 5, 0x53380d13)
    ensures CubeRoot(157, 5, 0x650a7354)
    ensures CubeRoot(163, 5, 0x766a0abb)
    ensures CubeRoot(167, 5, 0x81c2c92e)
    ensures CubeRoot(173, 5, 0x92722c85)
    ensures CubeRoot(179, 5, 0xa2bfe8a1)
    ensures CubeRoot(181, 5, 0xa81a664b)
    ensures CubeRoot(191, 5, 0xc24b8b70)
    ensures CubeRoot(193, 5, 0xc76c51a3)
    ensures CubeRoot(197, 5, 0xd192e819)
    ensures CubeRoot(199, 5, 0xd6990624)
    ensures CubeRoot(211, 5, 0xf40e3585)
    ensures CubeRoot(223, 6, 0x106aa070)
  {
  }

  lemma Values32()
    ensures Value(0x27b70a85) == 0x27b70a85 && Value(0x2e1b2138) == 0x2e1b2138
    ensures Value(0x4d2c6dfc) == 0x4d2c6dfc && Value(0x53380d13) == 0x53380d13
    ensures Value(0x650a7354) == 0x650a7354 && Value(0x766a0abb) == 0x766a0abb
    ensures Value(0x81c2c92e) == 0x81c2c92e && Value(0x92722c85) == 0x92722c85
    ensures Value(0xa2bfe8a1) == 0xa2bfe8a1 && Value(0xa81a664b) == 0xa81a664b
    ensures Value(0xc24b8b70) == 0xc24b8b70 && Value(0xc76c51a3) == 0xc76c51a3
    ensures Value(0xd192e819) == 0xd192e819 && Value(0xd6990624) == 0xd6990624
    ensures Value(0xf40e3585) == 0xf40e3585 && Value(0x106aa070) == 0x106aa070
  {
  }

  lemma Roots32(t: nat)
    requires t == 32
    ensures CubeRoot(137, 5, Value(K(t)))
    ensures CubeRoot(139, 5, Value(K(t + 1)))
    ensures CubeRoot(149, 5, Value(K(t + 2)))
    ensures CubeRoot(151, 5, Value(K(t + 3)))
    ensures CubeRoot(157, 5, Value(K(t + 4)))
    ensures CubeRoot(163, 5, Value(K(t + 5)))
    ensures CubeRoot(167, 5, Value(K(t + 6)))
    ensures CubeRoot(173, 5, Value(K(t + 7)))
    ensures CubeRoot(179, 5, Value(K(t + 8)))
    ensures CubeRoot(181, 5, Value(K(t + 9)))
    ensures CubeRoot(191, 5, Value(K(t + 10)))
    ensures CubeRoot(193, 5, Value(K(t + 11)))
    ensures CubeRoot(197, 5, Value(K(t + 12)))
    ensures CubeRoot(199, 5, Value(K(t + 13)))
    ensures CubeRoot(211, 5, Value(K(t + 14)))
    ensures CubeRoot(223, 6, Value(K(t + 15)))
  {
    hide K, Value, CubeRoot;
    Keys32(t);
    Values32();
    Cubes32();
  }

  lemma Cubes48()
    ensures CubeRoot(227, 6, 0x19a4c116)
    ensures CubeRoot(229, 6, 0x1e376c08)
    ensures CubeRoot(233, 6, 0x2748774c)
    ensures CubeRoot(239, 6, 0x34b0bcb5)
    ensures CubeRoot(241, 6, 0x391c0cb3)
    ensures CubeRoot(251, 6, 0x4ed8aa4a)
    ensures CubeRoot(257, 6, 0x5b9cca4f)
    ensures CubeRoot(263, 6, 0x682e6ff3)
    ensures CubeRoot(269, 6, 0x748f82ee)
    ensures CubeRoot(271, 6, 0x78a5636f)
    ensures CubeRoot(277, 6, 0x84c87814)
    ensures CubeRoot(281, 6, 0x8cc70208)
    ensures CubeRoot(283, 6, 0x90befffa)
    ensures CubeRoot(293, 6, 0xa4506ceb)
    ensures CubeRoot(307, 6, 0xbef9a3f7)
    ensures CubeRoot(311, 6, 0xc67178f2)
  {
  }

  lemma Values48()
    ensures Value(0x19a4c116) == 0x19a4c116 && Value(0x1e376c08) == 0x1e376c08
    ensures Value(0x2748774c) == 0x2748774c && Value(0x34b0bcb5) == 0x34b0bcb5
    ensures Value(0x391c0cb3) == 0x391c0cb3 && Value(0x4ed8aa4a) == 0x4ed8aa4a
    ensures Value(0x5b9cca4f) == 0x5b9cca4f && Value(0x682e6ff3) == 0x682e6ff3
    ensures Value(0x748f82ee) == 0x748f82ee && Value(0x78a5636f) == 0x78a5636f
    ensures Value(0x84c87814) == 0x84c87814 && Value(0x8cc70208) == 0x8cc70208
    ensures Value(0x90befffa) == 0x90befffa && Value(0xa4506ceb) == 0xa4506ceb
    ensures Value(0xbef9a3f7) == 0xbef9a3f7 && Value(0xc67178f2) == 0xc67178f2
  {
  }

  lemma Roots48(t: nat)
    requires t == 48
    ensures CubeRoot(227, 6, Value(K(t)))
    ensures CubeRoot(229, 6, Value(K(t + 1)))
    ensures CubeRoot(233, 6, Value(K(t + 2)))
    ensures CubeRoot(239, 6, Value(K(t + 3)))
    ensures CubeRoot(241, 6, Value(K(t + 4)))
    ensures CubeRoot(251, 6, Value(K(t + 5)))
    ensures CubeRoot(257, 6, Value(K(t + 6)))
    ensures CubeRoot(263, 6, Value(K(t + 7)))
    ensures CubeRoot(269, 6, Value(K(t + 8)))
    ensures CubeRoot(271, 6, Value(K(t + 9)))
    ensures CubeRoot(277, 6, Value(K(t + 10)))
    ensures CubeRoot(281, 6, Value(K(t + 11)))
    ensures CubeRoot(283, 6, Value(K(t + 12)))
    ensures CubeRoot(293, 6, Value(K(t + 13)))
    ensures CubeRoot(307, 6, Value(K(t + 14)))
    ensures CubeRoot(311, 6, Value(K(t + 15)))
  {
    hide K, Value, CubeRoot;
    Keys48(t);
    Values48();
    Cubes48();
  }

}
