// The digest of the empty message, worked out on 32-bit machine words operation by operation.

module Md5Known {
  import opened Bytes
  import opened MachineWords
  import opened Md5Machines
  import opened Md5Rfc
  import opened Md5Words

  // The one block of the empty message.
  function Block(): (x: seq<word>)
    ensures |x| == 16
  {
    seq(16, i => if i == 0 then 0x80 else 0)
  }

  // f(n) are the registers after n operations on it.
  ghost predicate Follows(f: nat -> Registers) {
    && f(0) == INITIAL
    && forall n: nat {:trigger Operation(StandardTables(), n, f(n), Block())} ::
         n < 64 ==> f(n + 1) == Operation(StandardTables(), n, f(n), Block())
  }

  // They are these words, in the order in which the next operation names them.
  ghost predicate At(f: nat -> Registers, n: nat, a: bv32, b: bv32, c: bv32, d: bv32) {
    Named(n, f(n)) == Numbers(Machine32(Val), Words(a, b, c, d))
  }

  // What operation n works with: a word of the block, a sine and an amount.
  predicate Operands(n: nat, x: bv32, k: bv32, s: bv32)
    requires n < 64
  {
    && Val(x) == Block()[X_INDEX[n / 16][n % 16]] && Val(k) == SINES[n / 16][n % 16]
    && s < 32 && Counts(SHIFTS[n / 16][n % 4], s)
  }

  lemma Step(f: nat -> Registers, n: nat, a: bv32, b: bv32, c: bv32, d: bv32,
             x: bv32, k: bv32, s: bv32, w: bv32)
    requires Follows(f) && n < 64 && At(f, n, a, b, c, d)
    requires Operands(n, x, k, s) && w == New32(n / 16, a, b, c, d, x, k, s)
    ensures At(f, n + 1, d, w, b, c)
  {
    Machine32Reads();
    New32Is(n / 16, a, b, c, d, x, k, s, SHIFTS[n / 16][n % 4], Val);
    TurnIs(Machine32(Val), n, Words(a, b, c, d), f(n), Block(), x, k);
  }

  lemma BlockWords32()
    ensures Val(0) == 0 && Val(0x80) == 0x80
  {
  }

  lemma Amounts()
    ensures Counts(4, 4)
    ensures Counts(5, 5)
    ensures Counts(6, 6)
    ensures Counts(7, 7)
    ensures Counts(9, 9)
    ensures Counts(10, 10)
    ensures Counts(11, 11)
    ensures Counts(12, 12)
    ensures Counts(14, 14)
    ensures Counts(15, 15)
    ensures Counts(16, 16)
    ensures Counts(17, 17)
    ensures Counts(20, 20)
    ensures Counts(21, 21)
    ensures Counts(22, 22)
    ensures Counts(23, 23)
  {
  }

  lemma Sines0()
    ensures Val(0xd76aa478) == 0xd76aa478
    ensures Val(0xe8c7b756) == 0xe8c7b756
    ensures Val(0x242070db) == 0x242070db
    ensures Val(0xc1bdceee) == 0xc1bdceee
  {
  }

  lemma Tables0()
    ensures Operands(0, 0x80, 0xd76aa478, 7)
    ensures Operands(1, 0x0, 0xe8c7b756, 12)
    ensures Operands(2, 0x0, 0x242070db, 17)
    ensures Operands(3, 0x0, 0xc1bdceee, 22)
  {
    Amounts();
    BlockWords32();
    Sines0();
  }

  lemma Row0(f: nat -> Registers, n: nat)
    requires Follows(f) && n == 0 && At(f, n, 0x67452301, 0xefcdab89, 0x98badcfe, 0x10325476)
    ensures At(f, n + 4, 0xa5202774, 0x1b163203, 0xe7f06b23, 0xf59592dd)
  {
    Tables0();
    Step(f, n, 0x67452301, 0xefcdab89, 0x98badcfe, 0x10325476, 0x80, 0xd76aa478, 7, 0xa5202774);
    Step(f, n + 1, 0x10325476, 0xa5202774, 0xefcdab89, 0x98badcfe, 0x0, 0xe8c7b756, 12, 0xf59592dd);
    Step(f, n + 2, 0x98badcfe, 0xf59592dd, 0xa5202774, 0xefcdab89, 0x0, 0x242070db, 17, 0xe7f06b23);
    Step(f, n + 3, 0xefcdab89, 0xe7f06b23, 0xf59592dd, 0xa5202774, 0x0, 0xc1bdceee, 22, 0x1b163203);
  }

  lemma Sines1()
    ensures Val(0xf57c0faf) == 0xf57c0faf
    ensures Val(0x4787c62a) == 0x4787c62a
    ensures Val(0xa8304613) == 0xa8304613
    ensures Val(0xfd469501) == 0xfd469501
  {
  }

  lemma Tables1()
    ensures Operands(4, 0x0, 0xf57c0faf, 7)
    ensures Operands(5, 0x0, 0x4787c62a, 12)
    ensures Operands(6, 0x0, 0xa8304613, 17)
    ensures Operands(7, 0x0, 0xfd469501, 22)
  {
    Amounts();
    BlockWords32();
    Sines1();
  }

  lemma Row1(f: nat -> Registers, n: nat)
    requires Follows(f) && n == 4 && At(f, n, 0xa5202774, 0x1b163203, 0xe7f06b23, 0xf59592dd)
    ensures At(f, n + 4, 0x32033344, 0x9bc13ce9, 0xf5b158db, 0x2f35d494)
  {
    Tables1();
    Step(f, n, 0xa5202774, 0x1b163203, 0xe7f06b23, 0xf59592dd, 0x0, 0xf57c0faf, 7, 0x32033344);
    Step(f, n + 1, 0xf59592dd, 0x32033344, 0x1b163203, 0xe7f06b23, 0x0, 0x4787c62a, 12, 0x2f35d494);
    Step(f, n + 2, 0xe7f06b23, 0x2f35d494, 0x32033344, 0x1b163203, 0x0, 0xa8304613, 17, 0xf5b158db);
    Step(f, n + 3, 0x1b163203, 0xf5b158db, 0x2f35d494, 0x32033344, 0x0, 0xfd469501, 22, 0x9bc13ce9);
  }

  lemma Sines2()
    ensures Val(0x698098d8) == 0x698098d8
    ensures Val(0x8b44f7af) == 0x8b44f7af
    ensures Val(0xffff5bb1) == 0xffff5bb1
    ensures Val(0x895cd7be) == 0x895cd7be
  {
  }

  lemma Tables2()
    ensures Operands(8, 0x0, 0x698098d8, 7)
    ensures Operands(9, 0x0, 0x8b44f7af, 12)
    ensures Operands(10, 0x0, 0xffff5bb1, 17)
    ensures Operands(11, 0x0, 0x895cd7be, 22)
  {
    Amounts();
    BlockWords32();
    Sines2();
  }

  lemma Row2(f: nat -> Registers, n: nat)
    requires Follows(f) && n == 8 && At(f, n, 0x32033344, 0x9bc13ce9, 0xf5b158db, 0x2f35d494)
    ensures At(f, n + 4, 0x3893b991, 0x70768a29, 0xe1ef0576, 0xfce4a312)
  {
    Tables2();
    Step(f, n, 0x32033344, 0x9bc13ce9, 0xf5b158db, 0x2f35d494, 0x0, 0x698098d8, 7, 0x3893b991);
    Step(f, n + 1, 0x2f35d494, 0x3893b991, 0x9bc13ce9, 0xf5b158db, 0x0, 0x8b44f7af, 12, 0xfce4a312);
    Step(f, n + 2, 0xf5b158db, 0xfce4a312, 0x3893b991, 0x9bc13ce9, 0x0, 0xffff5bb1, 17, 0xe1ef0576);
    Step(f, n + 3, 0x9bc13ce9, 0xe1ef0576, 0xfce4a312, 0x3893b991, 0x0, 0x895cd7be, 22, 0x70768a29);
  }

  lemma Sines3()
    ensures Val(0x6b901122) == 0x6b901122
    ensures Val(0xfd987193) == 0xfd987193
    ensures Val(0xa679438e) == 0xa679438e
    ensures Val(0x49b40821) == 0x49b40821
  {
  }

  lemma Tables3()
    ensures Operands(12, 0x0, 0x6b901122, 7)
    ensures Operands(13, 0x0, 0xfd987193, 12)
    ensures Operands(14, 0x0, 0xa679438e, 17)
    ensures Operands(15, 0x0, 0x49b40821, 22)
  {
    Amounts();
    BlockWords32();
    Sines3();
  }

  lemma Row3(f: nat -> Registers, n: nat)
    requires Follows(f) && n == 12 && At(f, n, 0x3893b991, 0x70768a29, 0xe1ef0576, 0xfce4a312)
    ensures At(f, n + 4, 0xf56c7cf1, 0xd6819c6a, 0x5aa53f75, 0x374943a7)
  {
    Tables3();
    Step(f, n, 0x3893b991, 0x70768a29, 0xe1ef0576, 0xfce4a312, 0x0, 0x6b901122, 7, 0xf56c7cf1);
    Step(f, n + 1, 0xfce4a312, 0xf56c7cf1, 0x70768a29, 0xe1ef0576, 0x0, 0xfd987193, 12, 0x374943a7);
    Step(f, n + 2, 0xe1ef0576, 0x374943a7, 0xf56c7cf1, 0x70768a29, 0x0, 0xa679438e, 17, 0x5aa53f75);
    Step(f, n + 3, 0x70768a29, 0x5aa53f75, 0x374943a7, 0xf56c7cf1, 0x0, 0x49b40821, 22, 0xd6819c6a);
  }

  lemma Sines4()
    ensures Val(0xf61e2562) == 0xf61e2562
    ensures Val(0xc040b340) == 0xc040b340
    ensures Val(0x265e5a51) == 0x265e5a51
    ensures Val(0xe9b6c7aa) == 0xe9b6c7aa
  {
  }

  lemma Tables4()
    ensures Operands(16, 0x0, 0xf61e2562, 5)
    ensures Operands(17, 0x0, 0xc040b340, 9)
    ensures Operands(18, 0x0, 0x265e5a51, 14)
    ensures Operands(19, 0x80, 0xe9b6c7aa, 20)
  {
    Amounts();
    BlockWords32();
    Sines4();
  }

  lemma Row4(f: nat -> Registers, n: nat)
    requires Follows(f) && n == 16 && At(f, n, 0xf56c7cf1, 0xd6819c6a, 0x5aa53f75, 0x374943a7)
    ensures At(f, n + 4, 0x1c7d7513, 0xbd782e17, 0xc095f13a, 0x7bd57a3a)
  {
    Tables4();
    Step(f, n, 0xf56c7cf1, 0xd6819c6a, 0x5aa53f75, 0x374943a7, 0x0, 0xf61e2562, 5, 0x1c7d7513);
    Step(f, n + 1, 0x374943a7, 0x1c7d7513, 0xd6819c6a, 0x5aa53f75, 0x0, 0xc040b340, 9, 0x7bd57a3a);
    Step(f, n + 2, 0x5aa53f75, 0x7bd57a3a, 0x1c7d7513, 0xd6819c6a, 0x0, 0x265e5a51, 14, 0xc095f13a);
    Step(f, n + 3, 0xd6819c6a, 0xc095f13a, 0x7bd57a3a, 0x1c7d7513, 0x80, 0xe9b6c7aa, 20, 0xbd782e17);
  }

  lemma Sines5()
    ensures Val(0xd62f105d) == 0xd62f105d
    ensures Val(0x02441453) == 0x02441453
    ensures Val(0xd8a1e681) == 0xd8a1e681
    ensures Val(0xe7d3fbc8) == 0xe7d3fbc8
  {
  }

  lemma Tables5()
    ensures Operands(20, 0x0, 0xd62f105d, 5)
    ensures Operands(21, 0x0, 0x02441453, 9)
    ensures Operands(22, 0x0, 0xd8a1e681, 14)
    ensures Operands(23, 0x0, 0xe7d3fbc8, 20)
  {
    Amounts();
    BlockWords32();
    Sines5();
  }

  lemma Row5(f: nat -> Registers, n: nat)
    requires Follows(f) && n == 20 && At(f, n, 0x1c7d7513, 0xbd782e17, 0xc095f13a, 0x7bd57a3a)
    ensures At(f, n + 4, 0x3d1e3e6c, 0xe422531a, 0xeb41643e, 0x68b7b3e3)
  {
    Tables5();
    Step(f, n, 0x1c7d7513, 0xbd782e17, 0xc095f13a, 0x7bd57a3a, 0x0, 0xd62f105d, 5, 0x3d1e3e6c);
    Step(f, n + 1, 0x7bd57a3a, 0x3d1e3e6c, 0xbd782e17, 0xc095f13a, 0x0, 0x02441453, 9, 0x68b7b3e3);
    Step(f, n + 2, 0xc095f13a, 0x68b7b3e3, 0x3d1e3e6c, 0xbd782e17, 0x0, 0xd8a1e681, 14, 0xeb41643e);
    Step(f, n + 3, 0xbd782e17, 0xeb41643e, 0x68b7b3e3, 0x3d1e3e6c, 0x0, 0xe7d3fbc8, 20, 0xe422531a);
  }

  lemma Sines6()
    ensures Val(0x21e1cde6) == 0x21e1cde6
    ensures Val(0xc33707d6) == 0xc33707d6
    ensures Val(0xf4d50d87) == 0xf4d50d87
    ensures Val(0x455a14ed) == 0x455a14ed
  {
  }

  lemma Tables6()
    ensures Operands(24, 0x0, 0x21e1cde6, 5)
    ensures Operands(25, 0x0, 0xc33707d6, 9)
    ensures Operands(26, 0x0, 0xf4d50d87, 14)
    ensures Operands(27, 0x0, 0x455a14ed, 20)
  {
    Amounts();
    BlockWords32();
    Sines6();
  }

  lemma Row6(f: nat -> Registers, n: nat)
    requires Follows(f) && n == 24 && At(f, n, 0x3d1e3e6c, 0xe422531a, 0xeb41643e, 0x68b7b3e3)
    ensures At(f, n + 4, 0x306ec122, 0xa0572807, 0xa3c663da, 0xd28c77c2)
  {
    Tables6();
    Step(f, n, 0x3d1e3e6c, 0xe422531a, 0xeb41643e, 0x68b7b3e3, 0x0, 0x21e1cde6, 5, 0x306ec122);
    Step(f, n + 1, 0x68b7b3e3, 0x306ec122, 0xe422531a, 0xeb41643e, 0x0, 0xc33707d6, 9, 0xd28c77c2);
    Step(f, n + 2, 0xeb41643e, 0xd28c77c2, 0x306ec122, 0xe422531a, 0x0, 0xf4d50d87, 14, 0xa3c663da);
    Step(f, n + 3, 0xe422531a, 0xa3c663da, 0xd28c77c2, 0x306ec122, 0x0, 0x455a14ed, 20, 0xa0572807);
  }

  lemma Sines7()
    ensures Val(0xa9e3e905) == 0xa9e3e905
    ensures Val(0xfcefa3f8) == 0xfcefa3f8
    ensures Val(0x676f02d9) == 0x676f02d9
    ensures Val(0x8d2a4c8a) == 0x8d2a4c8a
  {
  }

  lemma Tables7()
    ensures Operands(28, 0x0, 0xa9e3e905, 5)
    ensures Operands(29, 0x0, 0xfcefa3f8, 9)
    ensures Operands(30, 0x0, 0x676f02d9, 14)
    ensures Operands(31, 0x0, 0x8d2a4c8a, 20)
  {
    Amounts();
    BlockWords32();
    Sines7();
  }

  lemma Row7(f: nat -> Registers, n: nat)
    requires Follows(f) && n == 28 && At(f, n, 0x306ec122, 0xa0572807, 0xa3c663da, 0xd28c77c2)
    ensures At(f, n + 4, 0x13707036, 0xa2205f1f, 0x1c31c384, 0xae7813db)
  {
    Tables7();
    Step(f, n, 0x306ec122, 0xa0572807, 0xa3c663da, 0xd28c77c2, 0x0, 0xa9e3e905, 5, 0x13707036);
    Step(f, n + 1, 0xd28c77c2, 0x13707036, 0xa0572807, 0xa3c663da, 0x0, 0xfcefa3f8, 9, 0xae7813db);
    Step(f, n + 2, 0xa3c663da, 0xae7813db, 0x13707036, 0xa0572807, 0x0, 0x676f02d9, 14, 0x1c31c384);
    Step(f, n + 3, 0xa0572807, 0x1c31c384, 0xae7813db, 0x13707036, 0x0, 0x8d2a4c8a, 20, 0xa2205f1f);
  }

  lemma Sines8()
    ensures Val(0xfffa3942) == 0xfffa3942
    ensures Val(0x8771f681) == 0x8771f681
    ensures Val(0x6d9d6122) == 0x6d9d6122
    ensures Val(0xfde5380c) == 0xfde5380c
  {
  }

  lemma Tables8()
    ensures Operands(32, 0x0, 0xfffa3942, 4)
    ensures Operands(33, 0x0, 0x8771f681, 11)
    ensures Operands(34, 0x0, 0x6d9d6122, 16)
    ensures Operands(35, 0x0, 0xfde5380c, 23)
  {
    Amounts();
    BlockWords32();
    Sines8();
  }

  lemma Row8(f: nat -> Registers, n: nat)
    requires Follows(f) && n == 32 && At(f, n, 0x13707036, 0xa2205f1f, 0x1c31c384, 0xae7813db)
    ensures At(f, n + 4, 0xdf63eaa1, 0x004b6669, 0x12f3e755, 0xc3689f5b)
  {
    Tables8();
    Step(f, n, 0x13707036, 0xa2205f1f, 0x1c31c384, 0xae7813db, 0x0, 0xfffa3942, 4, 0xdf63eaa1);
    Step(f, n + 1, 0xae7813db, 0xdf63eaa1, 0xa2205f1f, 0x1c31c384, 0x0, 0x8771f681, 11, 0xc3689f5b);
    Step(f, n + 2, 0x1c31c384, 0xc3689f5b, 0xdf63eaa1, 0xa2205f1f, 0x0, 0x6d9d6122, 16, 0x12f3e755);
    Step(f, n + 3, 0xa2205f1f, 0x12f3e755, 0xc3689f5b, 0xdf63eaa1, 0x0, 0xfde5380c, 23, 0x004b6669);
  }

  lemma Sines9()
    ensures Val(0xa4beea44) == 0xa4beea44
    ensures Val(0x4bdecfa9) == 0x4bdecfa9
    ensures Val(0xf6bb4b60) == 0xf6bb4b60
    ensures Val(0xbebfbc70) == 0xbebfbc70
  {
  }

  lemma Tables9()
    ensures Operands(36, 0x0, 0xa4beea44, 4)
    ensures Operands(37, 0x0, 0x4bdecfa9, 11)
    ensures Operands(38, 0x0, 0xf6bb4b60, 16)
    ensures Operands(39, 0x0, 0xbebfbc70, 23)
  {
    Amounts();
    BlockWords32();
    Sines9();
  }

  lemma Row9(f: nat -> Registers, n: nat)
    requires Follows(f) && n == 36 && At(f, n, 0xdf63eaa1, 0x004b6669, 0x12f3e755, 0xc3689f5b)
    ensures At(f, n + 4, 0x5f7a9b2e, 0xc5dc8c15, 0x91ca4cb7, 0xabc34e16)
  {
    Tables9();
    Step(f, n, 0xdf63eaa1, 0x004b6669, 0x12f3e755, 0xc3689f5b, 0x0, 0xa4beea44, 4, 0x5f7a9b2e);
    Step(f, n + 1, 0xc3689f5b, 0x5f7a9b2e, 0x004b6669, 0x12f3e755, 0x0, 0x4bdecfa9, 11, 0xabc34e16);
    Step(f, n + 2, 0x12f3e755, 0xabc34e16, 0x5f7a9b2e, 0x004b6669, 0x0, 0xf6bb4b60, 16, 0x91ca4cb7);
    Step(f, n + 3, 0x004b6669, 0x91ca4cb7, 0xabc34e16, 0x5f7a9b2e, 0x0, 0xbebfbc70, 23, 0xc5dc8c15);
  }

  lemma Sines10()
    ensures Val(0x289b7ec6) == 0x289b7ec6
    ensures Val(0xeaa127fa) == 0xeaa127fa
    ensures Val(0xd4ef3085) == 0xd4ef3085
    ensures Val(0x04881d05) == 0x04881d05
  {
  }

  lemma Tables10()
    ensures Operands(40, 0x0, 0x289b7ec6, 4)
    ensures Operands(41, 0x80, 0xeaa127fa, 11)
    ensures Operands(42, 0x0, 0xd4ef3085, 16)
    ensures Operands(43, 0x0, 0x04881d05, 23)
  {
    Amounts();
    BlockWords32();
    Sines10();
  }

  lemma Row10(f: nat -> Registers, n: nat)
    requires Follows(f) && n == 40 && At(f, n, 0x5f7a9b2e, 0xc5dc8c15, 0x91ca4cb7, 0xabc34e16)
    ensures At(f, n + 4, 0x4497169d, 0x0fe32453, 0xfd95f243, 0x76fd93d4)
  {
    Tables10();
    Step(f, n, 0x5f7a9b2e, 0xc5dc8c15, 0x91ca4cb7, 0xabc34e16, 0x0, 0x289b7ec6, 4, 0x4497169d);
    Step(f, n + 1, 0xabc34e16, 0x4497169d, 0xc5dc8c15, 0x91ca4cb7, 0x80, 0xeaa127fa, 11, 0x76fd93d4);
    Step(f, n + 2, 0x91ca4cb7, 0x76fd93d4, 0x4497169d, 0xc5dc8c15, 0x0, 0xd4ef3085, 16, 0xfd95f243);
    Step(f, n + 3, 0xc5dc8c15, 0xfd95f243, 0x76fd93d4, 0x4497169d, 0x0, 0x04881d05, 23, 0x0fe32453);
  }

  lemma Sines11()
    ensures Val(0xd9d4d039) == 0xd9d4d039
    ensures Val(0xe6db99e5) == 0xe6db99e5
    ensures Val(0x1fa27cf8) == 0x1fa27cf8
    ensures Val(0xc4ac5665) == 0xc4ac5665
  {
  }

  lemma Tables11()
    ensures Operands(44, 0x0, 0xd9d4d039, 4)
    ensures Operands(45, 0x0, 0xe6db99e5, 11)
    ensures Operands(46, 0x0, 0x1fa27cf8, 16)
    ensures Operands(47, 0x0, 0xc4ac5665, 23)
  {
    Amounts();
    BlockWords32();
    Sines11();
  }

  lemma Row11(f: nat -> Registers, n: nat)
    requires Follows(f) && n == 44 && At(f, n, 0x4497169d, 0x0fe32453, 0xfd95f243, 0x76fd93d4)
    ensures At(f, n + 4, 0x3f55edfd, 0xca7d2dbd, 0x68d84ea2, 0x22a31f54)
  {
    Tables11();
    Step(f, n, 0x4497169d, 0x0fe32453, 0xfd95f243, 0x76fd93d4, 0x0, 0xd9d4d039, 4, 0x3f55edfd);
    Step(f, n + 1, 0x76fd93d4, 0x3f55edfd, 0x0fe32453, 0xfd95f243, 0x0, 0xe6db99e5, 11, 0x22a31f54);
    Step(f, n + 2, 0xfd95f243, 0x22a31f54, 0x3f55edfd, 0x0fe32453, 0x0, 0x1fa27cf8, 16, 0x68d84ea2);
    Step(f, n + 3, 0x0fe32453, 0x68d84ea2, 0x22a31f54, 0x3f55edfd, 0x0, 0xc4ac5665, 23, 0xca7d2dbd);
  }

  lemma Sines12()
    ensures Val(0xf4292244) == 0xf4292244
    ensures Val(0x432aff97) == 0x432aff97
    ensures Val(0xab9423a7) == 0xab9423a7
    ensures Val(0xfc93a039) == 0xfc93a039
  {
  }

  lemma Tables12()
    ensures Operands(48, 0x80, 0xf4292244, 6)
    ensures Operands(49, 0x0, 0x432aff97, 10)
    ensures Operands(50, 0x0, 0xab9423a7, 15)
    ensures Operands(51, 0x0, 0xfc93a039, 21)
  {
    Amounts();
    BlockWords32();
    Sines12();
  }

  lemma Row12(f: nat -> Registers, n: nat)
    requires Follows(f) && n == 48 && At(f, n, 0x3f55edfd, 0xca7d2dbd, 0x68d84ea2, 0x22a31f54)
    ensures At(f, n + 4, 0x93aa2577, 0x561e0689, 0xcd85b8cb, 0x1688dc85)
  {
    Tables12();
    Step(f, n, 0x3f55edfd, 0xca7d2dbd, 0x68d84ea2, 0x22a31f54, 0x80, 0xf4292244, 6, 0x93aa2577);
    Step(f, n + 1, 0x22a31f54, 0x93aa2577, 0xca7d2dbd, 0x68d84ea2, 0x0, 0x432aff97, 10, 0x1688dc85);
    Step(f, n + 2, 0x68d84ea2, 0x1688dc85, 0x93aa2577, 0xca7d2dbd, 0x0, 0xab9423a7, 15, 0xcd85b8cb);
    Step(f, n + 3, 0xca7d2dbd, 0xcd85b8cb, 0x1688dc85, 0x93aa2577, 0x0, 0xfc93a039, 21, 0x561e0689);
  }

  lemma Sines13()
    ensures Val(0x655b59c3) == 0x655b59c3
    ensures Val(0x8f0ccc92) == 0x8f0ccc92
    ensures Val(0xffeff47d) == 0xffeff47d
    ensures Val(0x85845dd1) == 0x85845dd1
  {
  }

  lemma Tables13()
    ensures Operands(52, 0x0, 0x655b59c3, 6)
    ensures Operands(53, 0x0, 0x8f0ccc92, 10)
    ensures Operands(54, 0x0, 0xffeff47d, 15)
    ensures Operands(55, 0x0, 0x85845dd1, 21)
  {
    Amounts();
    BlockWords32();
    Sines13();
  }

  lemma Row13(f: nat -> Registers, n: nat)
    requires Follows(f) && n == 52 && At(f, n, 0x93aa2577, 0x561e0689, 0xcd85b8cb, 0x1688dc85)
    ensures At(f, n + 4, 0x5625a114, 0x1e77fa61, 0x392ad0d0, 0x3450f42b)
  {
    Tables13();
    Step(f, n, 0x93aa2577, 0x561e0689, 0xcd85b8cb, 0x1688dc85, 0x0, 0x655b59c3, 6, 0x5625a114);
    Step(f, n + 1, 0x1688dc85, 0x5625a114, 0x561e0689, 0xcd85b8cb, 0x0, 0x8f0ccc92, 10, 0x3450f42b);
    Step(f, n + 2, 0xcd85b8cb, 0x3450f42b, 0x5625a114, 0x561e0689, 0x0, 0xffeff47d, 15, 0x392ad0d0);
    Step(f, n + 3, 0x561e0689, 0x392ad0d0, 0x3450f42b, 0x5625a114, 0x0, 0x85845dd1, 21, 0x1e77fa61);
  }

  lemma Sines14()
    ensures Val(0x6fa87e4f) == 0x6fa87e4f
    ensures Val(0xfe2ce6e0) == 0xfe2ce6e0
    ensures Val(0xa3014314) == 0xa3014314
    ensures Val(0x4e0811a1) == 0x4e0811a1
  {
  }

  lemma Tables14()
    ensures Operands(56, 0x0, 0x6fa87e4f, 6)
    ensures Operands(57, 0x0, 0xfe2ce6e0, 10)
    ensures Operands(58, 0x0, 0xa3014314, 15)
    ensures Operands(59, 0x0, 0x4e0811a1, 21)
  {
    Amounts();
    BlockWords32();
    Sines14();
  }

  lemma Row14(f: nat -> Registers, n: nat)
    requires Follows(f) && n == 56 && At(f, n, 0x5625a114, 0x1e77fa61, 0x392ad0d0, 0x3450f42b)
    ensures At(f, n + 4, 0x474a9c8c, 0x30130182, 0x36594b14, 0xdfce00bc)
  {
    Tables14();
    Step(f, n, 0x5625a114, 0x1e77fa61, 0x392ad0d0, 0x3450f42b, 0x0, 0x6fa87e4f, 6, 0x474a9c8c);
    Step(f, n + 1, 0x3450f42b, 0x474a9c8c, 0x1e77fa61, 0x392ad0d0, 0x0, 0xfe2ce6e0, 10, 0xdfce00bc);
    Step(f, n + 2, 0x392ad0d0, 0xdfce00bc, 0x474a9c8c, 0x1e77fa61, 0x0, 0xa3014314, 15, 0x36594b14);
    Step(f, n + 3, 0x1e77fa61, 0x36594b14, 0xdfce00bc, 0x474a9c8c, 0x0, 0x4e0811a1, 21, 0x30130182);
  }

  lemma Sines15()
    ensures Val(0xf7537e82) == 0xf7537e82
    ensures Val(0xbd3af235) == 0xbd3af235
    ensures Val(0x2ad7d2bb) == 0x2ad7d2bb
    ensures Val(0xeb86d391) == 0xeb86d391
  {
  }

  lemma Tables15()
    ensures Operands(60, 0x0, 0xf7537e82, 6)
    ensures Operands(61, 0x0, 0xbd3af235, 10)
    ensures Operands(62, 0x0, 0x2ad7d2bb, 15)
    ensures Operands(63, 0x0, 0xeb86d391, 21)
  {
    Amounts();
    BlockWords32();
    Sines15();
  }

  lemma Row15(f: nat -> Registers, n: nat)
    requires Follows(f) && n == 60 && At(f, n, 0x474a9c8c, 0x30130182, 0x36594b14, 0xdfce00bc)
    ensures At(f, n + 4, 0x7246fad3, 0x14e45506, 0xff4ea3eb, 0x6e10a476)
  {
    Tables15();
    Step(f, n, 0x474a9c8c, 0x30130182, 0x36594b14, 0xdfce00bc, 0x0, 0xf7537e82, 6, 0x7246fad3);
    Step(f, n + 1, 0xdfce00bc, 0x7246fad3, 0x30130182, 0x36594b14, 0x0, 0xbd3af235, 10, 0x6e10a476);
    Step(f, n + 2, 0x36594b14, 0x6e10a476, 0x7246fad3, 0x30130182, 0x0, 0x2ad7d2bb, 15, 0xff4ea3eb);
    Step(f, n + 3, 0x30130182, 0xff4ea3eb, 0x6e10a476, 0x7246fad3, 0x0, 0xeb86d391, 21, 0x14e45506);
  }

  lemma Round0(f: nat -> Registers, n: nat)
    requires Follows(f) && n == 0 && At(f, n, 0x67452301, 0xefcdab89, 0x98badcfe, 0x10325476)
    ensures At(f, n + 16, 0xf56c7cf1, 0xd6819c6a, 0x5aa53f75, 0x374943a7)
  {
    Row0(f, n);
    Row1(f, n + 4);
    Row2(f, n + 8);
    Row3(f, n + 12);
  }

  lemma Round1(f: nat -> Registers, n: nat)
    requires Follows(f) && n == 16 && At(f, n, 0xf56c7cf1, 0xd6819c6a, 0x5aa53f75, 0x374943a7)
    ensures At(f, n + 16, 0x13707036, 0xa2205f1f, 0x1c31c384, 0xae7813db)
  {
    Row4(f, n);
    Row5(f, n + 4);
    Row6(f, n + 8);
    Row7(f, n + 12);
  }

  lemma Round2(f: nat -> Registers, n: nat)
    requires Follows(f) && n == 32 && At(f, n, 0x13707036, 0xa2205f1f, 0x1c31c384, 0xae7813db)
    ensures At(f, n + 16, 0x3f55edfd, 0xca7d2dbd, 0x68d84ea2, 0x22a31f54)
  {
    Row8(f, n);
    Row9(f, n + 4);
    Row10(f, n + 8);
    Row11(f, n + 12);
  }

  lemma Round3(f: nat -> Registers, n: nat)
    requires Follows(f) && n == 48 && At(f, n, 0x3f55edfd, 0xca7d2dbd, 0x68d84ea2, 0x22a31f54)
    ensures At(f, n + 16, 0x7246fad3, 0x14e45506, 0xff4ea3eb, 0x6e10a476)
  {
    Row12(f, n);
    Row13(f, n + 4);
    Row14(f, n + 8);
    Row15(f, n + 12);
  }

  lemma FirstWords()
    ensures Val(0x67452301) == 0x67452301 && Val(0xefcdab89) == 0xefcdab89
    ensures Val(0x98badcfe) == 0x98badcfe && Val(0x10325476) == 0x10325476
  {
  }

  lemma LastWords()
    ensures Val(0x7246fad3) == 0x7246fad3 && Val(0x14e45506) == 0x14e45506
    ensures Val(0xff4ea3eb) == 0xff4ea3eb && Val(0x6e10a476) == 0x6e10a476
  {
  }

  lemma Rounds(f: nat -> Registers, n: nat)
    requires Follows(f) && n == 0
    ensures At(f, n + 64, 0x7246fad3, 0x14e45506, 0xff4ea3eb, 0x6e10a476)
  {
    FirstWords();
    Round0(f, n);
    Round1(f, n + 16);
    Round2(f, n + 32);
    Round3(f, n + 48);
  }

  lemma Finished(f: nat -> Registers, n: nat)
    requires Follows(f) && n == 64
    ensures f(n) == Registers(0x7246fad3, 0x14e45506, 0xff4ea3eb, 0x6e10a476)
  {
    Rounds(f, n - 64);
    LastWords();
  }

  lemma OperationsFollow(f: nat -> Registers)
    requires forall n: nat {:trigger f(n)} :: f(n) == Operations(Block(), n, INITIAL)
    ensures Follows(f)
  {
    forall n: nat | n < 64 ensures f(n + 1) == Operation(StandardTables(), n, f(n), Block()) {
      OneOperation(Block(), n, INITIAL);
    }
  }

  lemma Operated(n: nat)
    requires n == 64
    ensures Operations(Block(), n, INITIAL) == Registers(0x7246fad3, 0x14e45506, 0xff4ea3eb, 0x6e10a476)
  {
    var f := (n: nat) => Operations(Block(), n, INITIAL);
    OperationsFollow(f);
    Finished(f, n);
  }

  lemma Added(r: Registers)
    requires r == Registers(0x7246fad3, 0x14e45506, 0xff4ea3eb, 0x6e10a476)
    ensures Sum(INITIAL, r) == Registers(0xd98c1dd4, 0x04b2008f, 0x980980e9, 0x7e42f8ec)
  {
  }

  lemma Processed(t: Tables, n: nat)
    requires t == StandardTables() && n == |t.sine|
    ensures ProcessBlock(t, INITIAL, Block()) == Registers(0xd98c1dd4, 0x04b2008f, 0x980980e9, 0x7e42f8ec)
  {
    Operated(n);
    Added(Operations(Block(), n, INITIAL));
  }

  lemma EmptyPadded(p: seq<byte>, i: nat)
    requires p == Padded([]) && i < 64
    ensures |p| == 64 && p[i] == if i == 0 then 0x80 else 0
  {
  }

  lemma OnlyBlock(p: seq<byte>)
    requires p == Padded([])
    ensures |p| == 64 && BlockWords(p, 0) == Block()
  {
    forall j | 0 <= j < 16 ensures BlockWords(p, 0)[j] == Block()[j] {
      EmptyPadded(p, 4 * j);
      EmptyPadded(p, 4 * j + 1);
      EmptyPadded(p, 4 * j + 2);
      EmptyPadded(p, 4 * j + 3);
    }
  }

  lemma OneBlock(t: Tables, p: seq<byte>)
    requires t.Sized() && |p| == 64
    ensures Repeat(BlockOf(t, p), |p| / 64, INITIAL) == ProcessBlock(t, INITIAL, BlockWords(p, 0))
  {
  }

  lemma Written(r: Registers)
    requires r == Registers(0xd98c1dd4, 0x04b2008f, 0x980980e9, 0x7e42f8ec)
    ensures Output(r) == [0xd4, 0x1d, 0x8c, 0xd9, 0x8f, 0x00, 0xb2, 0x04,
                          0xe9, 0x80, 0x09, 0x98, 0xec, 0xf8, 0x42, 0x7e]
  {
    assert ToBytes(r.a) == [0xd4, 0x1d, 0x8c, 0xd9];
    assert ToBytes(r.b) == [0x8f, 0x00, 0xb2, 0x04];
    assert ToBytes(r.c) == [0xe9, 0x80, 0x09, 0x98];
    assert ToBytes(r.d) == [0xec, 0xf8, 0x42, 0x7e];
  }

  // The digest of the empty message, as appendix A.5 of RFC 1321 gives it.
  lemma EmptyMessage()
    ensures Digest([]) == [0xd4, 0x1d, 0x8c, 0xd9, 0x8f, 0x00, 0xb2, 0x04,
                           0xe9, 0x80, 0x09, 0x98, 0xec, 0xf8, 0x42, 0x7e]
  {
    var t := StandardTables();
    var p := Padded([]);
    OnlyBlock(p);
    OneBlock(t, p);
    Processed(t, 64);
    Written(ProcessBlock(t, INITIAL, Block()));
  }
}
