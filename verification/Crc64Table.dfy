/** crc64.c: the table the checksum is computed with, and what each of its 256 entries stands for. */
module Crc64Table {

  /** The polynomial 0xad93d23594c935a9 with its bits reversed. */
  const POLYNOMIAL: bv64 := 0x95AC_9329_AC4B_C9B5

  /** One bit of the message shifted through the register. */
  function Step(c: bv64): bv64 { if c & 1 == 1 then (c >> 1) ^ POLYNOMIAL else c >> 1 }

  function Step8(c: bv64): bv64 { Step(Step(Step(Step(Step(Step(Step(Step(c)))))))) }

  /** A byte in a wider register. */
  function Wide(b: bv8): bv64 { b as bv64 }

  // crc64_tab, sixteen entries to a row.

  const ROW_0: seq<bv64> := [
    0x0000000000000000, 0x7ad870c830358979, 0xf5b0e190606b12f2, 0x8f689158505e9b8b,
    0xc038e5739841b68f, 0xbae095bba8743ff6, 0x358804e3f82aa47d, 0x4f50742bc81f2d04,
    0xab28ecb46814fe75, 0xd1f09c7c5821770c, 0x5e980d24087fec87, 0x24407dec384a65fe,
    0x6b1009c7f05548fa, 0x11c8790fc060c183, 0x9ea0e857903e5a08, 0xe478989fa00bd371
  ]

  const ROW_1: seq<bv64> := [
    0x7d08ff3b88be6f81, 0x07d08ff3b88be6f8, 0x88b81eabe8d57d73, 0xf2606e63d8e0f40a,
    0xbd301a4810ffd90e, 0xc7e86a8020ca5077, 0x4880fbd87094cbfc, 0x32588b1040a14285,
    0xd620138fe0aa91f4, 0xacf86347d09f188d, 0x2390f21f80c18306, 0x594882d7b0f40a7f,
    0x1618f6fc78eb277b, 0x6cc0863448deae02, 0xe3a8176c18803589, 0x997067a428b5bcf0
  ]

  const ROW_2: seq<bv64> := [
    0xfa11fe77117cdf02, 0x80c98ebf2149567b, 0x0fa11fe77117cdf0, 0x75796f2f41224489,
    0x3a291b04893d698d, 0x40f16bccb908e0f4, 0xcf99fa94e9567b7f, 0xb5418a5cd963f206,
    0x513912c379682177, 0x2be1620b495da80e, 0xa489f35319033385, 0xde51839b2936bafc,
    0x9101f7b0e12997f8, 0xebd98778d11c1e81, 0x64b116208142850a, 0x1e6966e8b1770c73
  ]

  const ROW_3: seq<bv64> := [
    0x8719014c99c2b083, 0xfdc17184a9f739fa, 0x72a9e0dcf9a9a271, 0x08719014c99c2b08,
    0x4721e43f0183060c, 0x3df994f731b68f75, 0xb29105af61e814fe, 0xc849756751dd9d87,
    0x2c31edf8f1d64ef6, 0x56e99d30c1e3c78f, 0xd9810c6891bd5c04, 0xa3597ca0a188d57d,
    0xec09088b6997f879, 0x96d1784359a27100, 0x19b9e91b09fcea8b, 0x636199d339c963f2
  ]

  const ROW_4: seq<bv64> := [
    0xdf7adabd7a6e2d6f, 0xa5a2aa754a5ba416, 0x2aca3b2d1a053f9d, 0x50124be52a30b6e4,
    0x1f423fcee22f9be0, 0x659a4f06d21a1299, 0xeaf2de5e82448912, 0x902aae96b271006b,
    0x74523609127ad31a, 0x0e8a46c1224f5a63, 0x81e2d7997211c1e8, 0xfb3aa75142244891,
    0xb46ad37a8a3b6595, 0xceb2a3b2ba0eecec, 0x41da32eaea507767, 0x3b024222da65fe1e
  ]

  const ROW_5: seq<bv64> := [
    0xa2722586f2d042ee, 0xd8aa554ec2e5cb97, 0x57c2c41692bb501c, 0x2d1ab4dea28ed965,
    0x624ac0f56a91f461, 0x1892b03d5aa47d18, 0x97fa21650afae693, 0xed2251ad3acf6fea,
    0x095ac9329ac4bc9b, 0x7382b9faaaf135e2, 0xfcea28a2faafae69, 0x8632586aca9a2710,
    0xc9622c4102850a14, 0xb3ba5c8932b0836d, 0x3cd2cdd162ee18e6, 0x460abd1952db919f
  ]

  const ROW_6: seq<bv64> := [
    0x256b24ca6b12f26d, 0x5fb354025b277b14, 0xd0dbc55a0b79e09f, 0xaa03b5923b4c69e6,
    0xe553c1b9f35344e2, 0x9f8bb171c366cd9b, 0x10e3202993385610, 0x6a3b50e1a30ddf69,
    0x8e43c87e03060c18, 0xf49bb8b633338561, 0x7bf329ee636d1eea, 0x012b592653589793,
    0x4e7b2d0d9b47ba97, 0x34a35dc5ab7233ee, 0xbbcbcc9dfb2ca865, 0xc113bc55cb19211c
  ]

  const ROW_7: seq<bv64> := [
    0x5863dbf1e3ac9dec, 0x22bbab39d3991495, 0xadd33a6183c78f1e, 0xd70b4aa9b3f20667,
    0x985b3e827bed2b63, 0xe2834e4a4bd8a21a, 0x6debdf121b863991, 0x1733afda2bb3b0e8,
    0xf34b37458bb86399, 0x8993478dbb8deae0, 0x06fbd6d5ebd3716b, 0x7c23a61ddbe6f812,
    0x3373d23613f9d516, 0x49aba2fe23cc5c6f, 0xc6c333a67392c7e4, 0xbc1b436e43a74e9d
  ]

  const ROW_8: seq<bv64> := [
    0x95ac9329ac4bc9b5, 0xef74e3e19c7e40cc, 0x601c72b9cc20db47, 0x1ac40271fc15523e,
    0x5594765a340a7f3a, 0x2f4c0692043ff643, 0xa02497ca54616dc8, 0xdafce7026454e4b1,
    0x3e847f9dc45f37c0, 0x445c0f55f46abeb9, 0xcb349e0da4342532, 0xb1eceec59401ac4b,
    0xfebc9aee5c1e814f, 0x8464ea266c2b0836, 0x0b0c7b7e3c7593bd, 0x71d40bb60c401ac4
  ]

  const ROW_9: seq<bv64> := [
    0xe8a46c1224f5a634, 0x927c1cda14c02f4d, 0x1d148d82449eb4c6, 0x67ccfd4a74ab3dbf,
    0x289c8961bcb410bb, 0x5244f9a98c8199c2, 0xdd2c68f1dcdf0249, 0xa7f41839ecea8b30,
    0x438c80a64ce15841, 0x3954f06e7cd4d138, 0xb63c61362c8a4ab3, 0xcce411fe1cbfc3ca,
    0x83b465d5d4a0eece, 0xf96c151de49567b7, 0x76048445b4cbfc3c, 0x0cdcf48d84fe7545
  ]

  const ROW_10: seq<bv64> := [
    0x6fbd6d5ebd3716b7, 0x15651d968d029fce, 0x9a0d8ccedd5c0445, 0xe0d5fc06ed698d3c,
    0xaf85882d2576a038, 0xd55df8e515432941, 0x5a3569bd451db2ca, 0x20ed197575283bb3,
    0xc49581ead523e8c2, 0xbe4df122e51661bb, 0x3125607ab548fa30, 0x4bfd10b2857d7349,
    0x04ad64994d625e4d, 0x7e7514517d57d734, 0xf11d85092d094cbf, 0x8bc5f5c11d3cc5c6
  ]

  const ROW_11: seq<bv64> := [
    0x12b5926535897936, 0x686de2ad05bcf04f, 0xe70573f555e26bc4, 0x9ddd033d65d7e2bd,
    0xd28d7716adc8cfb9, 0xa85507de9dfd46c0, 0x273d9686cda3dd4b, 0x5de5e64efd965432,
    0xb99d7ed15d9d8743, 0xc3450e196da80e3a, 0x4c2d9f413df695b1, 0x36f5ef890dc31cc8,
    0x79a59ba2c5dc31cc, 0x037deb6af5e9b8b5, 0x8c157a32a5b7233e, 0xf6cd0afa9582aa47
  ]

  const ROW_12: seq<bv64> := [
    0x4ad64994d625e4da, 0x300e395ce6106da3, 0xbf66a804b64ef628, 0xc5bed8cc867b7f51,
    0x8aeeace74e645255, 0xf036dc2f7e51db2c, 0x7f5e4d772e0f40a7, 0x05863dbf1e3ac9de,
    0xe1fea520be311aaf, 0x9b26d5e88e0493d6, 0x144e44b0de5a085d, 0x6e963478ee6f8124,
    0x21c640532670ac20, 0x5b1e309b16452559, 0xd476a1c3461bbed2, 0xaeaed10b762e37ab
  ]

  const ROW_13: seq<bv64> := [
    0x37deb6af5e9b8b5b, 0x4d06c6676eae0222, 0xc26e573f3ef099a9, 0xb8b627f70ec510d0,
    0xf7e653dcc6da3dd4, 0x8d3e2314f6efb4ad, 0x0256b24ca6b12f26, 0x788ec2849684a65f,
    0x9cf65a1b368f752e, 0xe62e2ad306bafc57, 0x6946bb8b56e467dc, 0x139ecb4366d1eea5,
    0x5ccebf68aecec3a1, 0x2616cfa09efb4ad8, 0xa97e5ef8cea5d153, 0xd3a62e30fe90582a
  ]

  const ROW_14: seq<bv64> := [
    0xb0c7b7e3c7593bd8, 0xca1fc72bf76cb2a1, 0x45775673a732292a, 0x3faf26bb9707a053,
    0x70ff52905f188d57, 0x0a2722586f2d042e, 0x854fb3003f739fa5, 0xff97c3c80f4616dc,
    0x1bef5b57af4dc5ad, 0x61372b9f9f784cd4, 0xee5fbac7cf26d75f, 0x9487ca0fff135e26,
    0xdbd7be24370c7322, 0xa10fceec0739fa5b, 0x2e675fb4576761d0, 0x54bf2f7c6752e8a9
  ]

  const ROW_15: seq<bv64> := [
    0xcdcf48d84fe75459, 0xb71738107fd2dd20, 0x387fa9482f8c46ab, 0x42a7d9801fb9cfd2,
    0x0df7adabd7a6e2d6, 0x772fdd63e7936baf, 0xf8474c3bb7cdf024, 0x829f3cf387f8795d,
    0x66e7a46c27f3aa2c, 0x1c3fd4a417c62355, 0x935745fc4798b8de, 0xe98f353477ad31a7,
    0xa6df411fbfb21ca3, 0xdc0731d78f8795da, 0x536fa08fdfd90e51, 0x29b7d047efec8728
  ]

  function Row(r: bv8): (row: seq<bv64>)
    ensures |row| == 16
  {
    if r == 0 then ROW_0 else if r == 1 then ROW_1 else if r == 2 then ROW_2 else if r == 3 then ROW_3
    else if r == 4 then ROW_4 else if r == 5 then ROW_5 else if r == 6 then ROW_6 else if r == 7 then ROW_7
    else if r == 8 then ROW_8 else if r == 9 then ROW_9 else if r == 10 then ROW_10 else if r == 11 then ROW_11
    else if r == 12 then ROW_12 else if r == 13 then ROW_13 else if r == 14 then ROW_14 else ROW_15
  }

  function Number(k: bv8): (n: nat)
    requires k < 16
    ensures n < 16
  {
    k as nat
  }

  lemma Numbers()
    ensures Number(0) == 0 && Number(1) == 1 && Number(2) == 2 && Number(3) == 3
    ensures Number(4) == 4 && Number(5) == 5 && Number(6) == 6 && Number(7) == 7
    ensures Number(8) == 8 && Number(9) == 9 && Number(10) == 10 && Number(11) == 11
    ensures Number(12) == 12 && Number(13) == 13 && Number(14) == 14 && Number(15) == 15
  {
  }

  /** crc64_tab[i]. */
  function Table(i: bv8): bv64
  {
    LowHalf(i);
    Row(i >> 4)[Number(i & 15)]
  }

  lemma LowHalf(i: bv8)
    ensures i & 15 < 16 && i >> 4 < 16
    ensures i == ((i >> 4) << 4) | (i & 15)
  {
  }

  lemma Steps0()
    ensures Step8(0) == 0x0000000000000000 && Step8(1) == 0x7ad870c830358979
    ensures Step8(2) == 0xf5b0e190606b12f2 && Step8(3) == 0x8f689158505e9b8b
    ensures Step8(4) == 0xc038e5739841b68f && Step8(5) == 0xbae095bba8743ff6
    ensures Step8(6) == 0x358804e3f82aa47d && Step8(7) == 0x4f50742bc81f2d04
    ensures Step8(8) == 0xab28ecb46814fe75 && Step8(9) == 0xd1f09c7c5821770c
    ensures Step8(10) == 0x5e980d24087fec87 && Step8(11) == 0x24407dec384a65fe
    ensures Step8(12) == 0x6b1009c7f05548fa && Step8(13) == 0x11c8790fc060c183
    ensures Step8(14) == 0x9ea0e857903e5a08 && Step8(15) == 0xe478989fa00bd371
  {
  }

  lemma RowIs0(k: bv8)
    requires k < 16
    ensures ROW_0[Number(k)] == Step8(Wide(0 | k))
  {
    Steps0();
    Numbers();
    hide Step8, Number;
    if k == 0 { assert Wide(0 | k) == 0; } if k == 1 { assert Wide(0 | k) == 1; }
    if k == 2 { assert Wide(0 | k) == 2; } if k == 3 { assert Wide(0 | k) == 3; }
    if k == 4 { assert Wide(0 | k) == 4; } if k == 5 { assert Wide(0 | k) == 5; }
    if k == 6 { assert Wide(0 | k) == 6; } if k == 7 { assert Wide(0 | k) == 7; }
    if k == 8 { assert Wide(0 | k) == 8; } if k == 9 { assert Wide(0 | k) == 9; }
    if k == 10 { assert Wide(0 | k) == 10; } if k == 11 { assert Wide(0 | k) == 11; }
    if k == 12 { assert Wide(0 | k) == 12; } if k == 13 { assert Wide(0 | k) == 13; }
    if k == 14 { assert Wide(0 | k) == 14; } if k == 15 { assert Wide(0 | k) == 15; }
  }

  lemma Steps1()
    ensures Step8(16) == 0x7d08ff3b88be6f81 && Step8(17) == 0x07d08ff3b88be6f8
    ensures Step8(18) == 0x88b81eabe8d57d73 && Step8(19) == 0xf2606e63d8e0f40a
    ensures Step8(20) == 0xbd301a4810ffd90e && Step8(21) == 0xc7e86a8020ca5077
    ensures Step8(22) == 0x4880fbd87094cbfc && Step8(23) == 0x32588b1040a14285
    ensures Step8(24) == 0xd620138fe0aa91f4 && Step8(25) == 0xacf86347d09f188d
    ensures Step8(26) == 0x2390f21f80c18306 && Step8(27) == 0x594882d7b0f40a7f
    ensures Step8(28) == 0x1618f6fc78eb277b && Step8(29) == 0x6cc0863448deae02
    ensures Step8(30) == 0xe3a8176c18803589 && Step8(31) == 0x997067a428b5bcf0
  {
  }

  lemma RowIs1(k: bv8)
    requires k < 16
    ensures ROW_1[Number(k)] == Step8(Wide(16 | k))
  {
    Steps1();
    Numbers();
    hide Step8, Number;
    if k == 0 { assert Wide(16 | k) == 16; } if k == 1 { assert Wide(16 | k) == 17; }
    if k == 2 { assert Wide(16 | k) == 18; } if k == 3 { assert Wide(16 | k) == 19; }
    if k == 4 { assert Wide(16 | k) == 20; } if k == 5 { assert Wide(16 | k) == 21; }
    if k == 6 { assert Wide(16 | k) == 22; } if k == 7 { assert Wide(16 | k) == 23; }
    if k == 8 { assert Wide(16 | k) == 24; } if k == 9 { assert Wide(16 | k) == 25; }
    if k == 10 { assert Wide(16 | k) == 26; } if k == 11 { assert Wide(16 | k) == 27; }
    if k == 12 { assert Wide(16 | k) == 28; } if k == 13 { assert Wide(16 | k) == 29; }
    if k == 14 { assert Wide(16 | k) == 30; } if k == 15 { assert Wide(16 | k) == 31; }
  }

  lemma Steps2()
    ensures Step8(32) == 0xfa11fe77117cdf02 && Step8(33) == 0x80c98ebf2149567b
    ensures Step8(34) == 0x0fa11fe77117cdf0 && Step8(35) == 0x75796f2f41224489
    ensures Step8(36) == 0x3a291b04893d698d && Step8(37) == 0x40f16bccb908e0f4
    ensures Step8(38) == 0xcf99fa94e9567b7f && Step8(39) == 0xb5418a5cd963f206
    ensures Step8(40) == 0x513912c379682177 && Step8(41) == 0x2be1620b495da80e
    ensures Step8(42) == 0xa489f35319033385 && Step8(43) == 0xde51839b2936bafc
    ensures Step8(44) == 0x9101f7b0e12997f8 && Step8(45) == 0xebd98778d11c1e81
    ensures Step8(46) == 0x64b116208142850a && Step8(47) == 0x1e6966e8b1770c73
  {
  }

  lemma RowIs2(k: bv8)
    requires k < 16
    ensures ROW_2[Number(k)] == Step8(Wide(32 | k))
  {
    Steps2();
    Numbers();
    hide Step8, Number;
    if k == 0 { assert Wide(32 | k) == 32; } if k == 1 { assert Wide(32 | k) == 33; }
    if k == 2 { assert Wide(32 | k) == 34; } if k == 3 { assert Wide(32 | k) == 35; }
    if k == 4 { assert Wide(32 | k) == 36; } if k == 5 { assert Wide(32 | k) == 37; }
    if k == 6 { assert Wide(32 | k) == 38; } if k == 7 { assert Wide(32 | k) == 39; }
    if k == 8 { assert Wide(32 | k) == 40; } if k == 9 { assert Wide(32 | k) == 41; }
    if k == 10 { assert Wide(32 | k) == 42; } if k == 11 { assert Wide(32 | k) == 43; }
    if k == 12 { assert Wide(32 | k) == 44; } if k == 13 { assert Wide(32 | k) == 45; }
    if k == 14 { assert Wide(32 | k) == 46; } if k == 15 { assert Wide(32 | k) == 47; }
  }

  lemma Steps3()
    ensures Step8(48) == 0x8719014c99c2b083 && Step8(49) == 0xfdc17184a9f739fa
    ensures Step8(50) == 0x72a9e0dcf9a9a271 && Step8(51) == 0x08719014c99c2b08
    ensures Step8(52) == 0x4721e43f0183060c && Step8(53) == 0x3df994f731b68f75
    ensures Step8(54) == 0xb29105af61e814fe && Step8(55) == 0xc849756751dd9d87
    ensures Step8(56) == 0x2c31edf8f1d64ef6 && Step8(57) == 0x56e99d30c1e3c78f
    ensures Step8(58) == 0xd9810c6891bd5c04 && Step8(59) == 0xa3597ca0a188d57d
    ensures Step8(60) == 0xec09088b6997f879 && Step8(61) == 0x96d1784359a27100
    ensures Step8(62) == 0x19b9e91b09fcea8b && Step8(63) == 0x636199d339c963f2
  {
  }

  lemma RowIs3(k: bv8)
    requires k < 16
    ensures ROW_3[Number(k)] == Step8(Wide(48 | k))
  {
    Steps3();
    Numbers();
    hide Step8, Number;
    if k == 0 { assert Wide(48 | k) == 48; } if k == 1 { assert Wide(48 | k) == 49; }
    if k == 2 { assert Wide(48 | k) == 50; } if k == 3 { assert Wide(48 | k) == 51; }
    if k == 4 { assert Wide(48 | k) == 52; } if k == 5 { assert Wide(48 | k) == 53; }
    if k == 6 { assert Wide(48 | k) == 54; } if k == 7 { assert Wide(48 | k) == 55; }
    if k == 8 { assert Wide(48 | k) == 56; } if k == 9 { assert Wide(48 | k) == 57; }
    if k == 10 { assert Wide(48 | k) == 58; } if k == 11 { assert Wide(48 | k) == 59; }
    if k == 12 { assert Wide(48 | k) == 60; } if k == 13 { assert Wide(48 | k) == 61; }
    if k == 14 { assert Wide(48 | k) == 62; } if k == 15 { assert Wide(48 | k) == 63; }
  }

  lemma Steps4()
    ensures Step8(64) == 0xdf7adabd7a6e2d6f && Step8(65) == 0xa5a2aa754a5ba416
    ensures Step8(66) == 0x2aca3b2d1a053f9d && Step8(67) == 0x50124be52a30b6e4
    ensures Step8(68) == 0x1f423fcee22f9be0 && Step8(69) == 0x659a4f06d21a1299
    ensures Step8(70) == 0xeaf2de5e82448912 && Step8(71) == 0x902aae96b271006b
    ensures Step8(72) == 0x74523609127ad31a && Step8(73) == 0x0e8a46c1224f5a63
    ensures Step8(74) == 0x81e2d7997211c1e8 && Step8(75) == 0xfb3aa75142244891
    ensures Step8(76) == 0xb46ad37a8a3b6595 && Step8(77) == 0xceb2a3b2ba0eecec
    ensures Step8(78) == 0x41da32eaea507767 && Step8(79) == 0x3b024222da65fe1e
  {
  }

  lemma RowIs4(k: bv8)
    requires k < 16
    ensures ROW_4[Number(k)] == Step8(Wide(64 | k))
  {
    Steps4();
    Numbers();
    hide Step8, Number;
    if k == 0 { assert Wide(64 | k) == 64; } if k == 1 { assert Wide(64 | k) == 65; }
    if k == 2 { assert Wide(64 | k) == 66; } if k == 3 { assert Wide(64 | k) == 67; }
    if k == 4 { assert Wide(64 | k) == 68; } if k == 5 { assert Wide(64 | k) == 69; }
    if k == 6 { assert Wide(64 | k) == 70; } if k == 7 { assert Wide(64 | k) == 71; }
    if k == 8 { assert Wide(64 | k) == 72; } if k == 9 { assert Wide(64 | k) == 73; }
    if k == 10 { assert Wide(64 | k) == 74; } if k == 11 { assert Wide(64 | k) == 75; }
    if k == 12 { assert Wide(64 | k) == 76; } if k == 13 { assert Wide(64 | k) == 77; }
    if k == 14 { assert Wide(64 | k) == 78; } if k == 15 { assert Wide(64 | k) == 79; }
  }

  lemma Steps5()
    ensures Step8(80) == 0xa2722586f2d042ee && Step8(81) == 0xd8aa554ec2e5cb97
    ensures Step8(82) == 0x57c2c41692bb501c && Step8(83) == 0x2d1ab4dea28ed965
    ensures Step8(84) == 0x624ac0f56a91f461 && Step8(85) == 0x1892b03d5aa47d18
    ensures Step8(86) == 0x97fa21650afae693 && Step8(87) == 0xed2251ad3acf6fea
    ensures Step8(88) == 0x095ac9329ac4bc9b && Step8(89) == 0x7382b9faaaf135e2
    ensures Step8(90) == 0xfcea28a2faafae69 && Step8(91) == 0x8632586aca9a2710
    ensures Step8(92) == 0xc9622c4102850a14 && Step8(93) == 0xb3ba5c8932b0836d
    ensures Step8(94) == 0x3cd2cdd162ee18e6 && Step8(95) == 0x460abd1952db919f
  {
  }

  lemma RowIs5(k: bv8)
    requires k < 16
    ensures ROW_5[Number(k)] == Step8(Wide(80 | k))
  {
    Steps5();
    Numbers();
    hide Step8, Number;
    if k == 0 { assert Wide(80 | k) == 80; } if k == 1 { assert Wide(80 | k) == 81; }
    if k == 2 { assert Wide(80 | k) == 82; } if k == 3 { assert Wide(80 | k) == 83; }
    if k == 4 { assert Wide(80 | k) == 84; } if k == 5 { assert Wide(80 | k) == 85; }
    if k == 6 { assert Wide(80 | k) == 86; } if k == 7 { assert Wide(80 | k) == 87; }
    if k == 8 { assert Wide(80 | k) == 88; } if k == 9 { assert Wide(80 | k) == 89; }
    if k == 10 { assert Wide(80 | k) == 90; } if k == 11 { assert Wide(80 | k) == 91; }
    if k == 12 { assert Wide(80 | k) == 92; } if k == 13 { assert Wide(80 | k) == 93; }
    if k == 14 { assert Wide(80 | k) == 94; } if k == 15 { assert Wide(80 | k) == 95; }
  }

  lemma Steps6()
    ensures Step8(96) == 0x256b24ca6b12f26d && Step8(97) == 0x5fb354025b277b14
    ensures Step8(98) == 0xd0dbc55a0b79e09f && Step8(99) == 0xaa03b5923b4c69e6
    ensures Step8(100) == 0xe553c1b9f35344e2 && Step8(101) == 0x9f8bb171c366cd9b
    ensures Step8(102) == 0x10e3202993385610 && Step8(103) == 0x6a3b50e1a30ddf69
    ensures Step8(104) == 0x8e43c87e03060c18 && Step8(105) == 0xf49bb8b633338561
    ensures Step8(106) == 0x7bf329ee636d1eea && Step8(107) == 0x012b592653589793
    ensures Step8(108) == 0x4e7b2d0d9b47ba97 && Step8(109) == 0x34a35dc5ab7233ee
    ensures Step8(110) == 0xbbcbcc9dfb2ca865 && Step8(111) == 0xc113bc55cb19211c
  {
  }

  lemma RowIs6(k: bv8)
    requires k < 16
    ensures ROW_6[Number(k)] == Step8(Wide(96 | k))
  {
    Steps6();
    Numbers();
    hide Step8, Number;
    if k == 0 { assert Wide(96 | k) == 96; } if k == 1 { assert Wide(96 | k) == 97; }
    if k == 2 { assert Wide(96 | k) == 98; } if k == 3 { assert Wide(96 | k) == 99; }
    if k == 4 { assert Wide(96 | k) == 100; } if k == 5 { assert Wide(96 | k) == 101; }
    if k == 6 { assert Wide(96 | k) == 102; } if k == 7 { assert Wide(96 | k) == 103; }
    if k == 8 { assert Wide(96 | k) == 104; } if k == 9 { assert Wide(96 | k) == 105; }
    if k == 10 { assert Wide(96 | k) == 106; } if k == 11 { assert Wide(96 | k) == 107; }
    if k == 12 { assert Wide(96 | k) == 108; } if k == 13 { assert Wide(96 | k) == 109; }
    if k == 14 { assert Wide(96 | k) == 110; } if k == 15 { assert Wide(96 | k) == 111; }
  }

  lemma Steps7()
    ensures Step8(112) == 0x5863dbf1e3ac9dec && Step8(113) == 0x22bbab39d3991495
    ensures Step8(114) == 0xadd33a6183c78f1e && Step8(115) == 0xd70b4aa9b3f20667
    ensures Step8(116) == 0x985b3e827bed2b63 && Step8(117) == 0xe2834e4a4bd8a21a
    ensures Step8(118) == 0x6debdf121b863991 && Step8(119) == 0x1733afda2bb3b0e8
    ensures Step8(120) == 0xf34b37458bb86399 && Step8(121) == 0x8993478dbb8deae0
    ensures Step8(122) == 0x06fbd6d5ebd3716b && Step8(123) == 0x7c23a61ddbe6f812
    ensures Step8(124) == 0x3373d23613f9d516 && Step8(125) == 0x49aba2fe23cc5c6f
    ensures Step8(126) == 0xc6c333a67392c7e4 && Step8(127) == 0xbc1b436e43a74e9d
  {
  }

  lemma RowIs7(k: bv8)
    requires k < 16
    ensures ROW_7[Number(k)] == Step8(Wide(112 | k))
  {
    Steps7();
    Numbers();
    hide Step8, Number;
    if k == 0 { assert Wide(112 | k) == 112; } if k == 1 { assert Wide(112 | k) == 113; }
    if k == 2 { assert Wide(112 | k) == 114; } if k == 3 { assert Wide(112 | k) == 115; }
    if k == 4 { assert Wide(112 | k) == 116; } if k == 5 { assert Wide(112 | k) == 117; }
    if k == 6 { assert Wide(112 | k) == 118; } if k == 7 { assert Wide(112 | k) == 119; }
    if k == 8 { assert Wide(112 | k) == 120; } if k == 9 { assert Wide(112 | k) == 121; }
    if k == 10 { assert Wide(112 | k) == 122; } if k == 11 { assert Wide(112 | k) == 123; }
    if k == 12 { assert Wide(112 | k) == 124; } if k == 13 { assert Wide(112 | k) == 125; }
    if k == 14 { assert Wide(112 | k) == 126; } if k == 15 { assert Wide(112 | k) == 127; }
  }

  lemma Steps8()
    ensures Step8(128) == 0x95ac9329ac4bc9b5 && Step8(129) == 0xef74e3e19c7e40cc
    ensures Step8(130) == 0x601c72b9cc20db47 && Step8(131) == 0x1ac40271fc15523e
    ensures Step8(132) == 0x5594765a340a7f3a && Step8(133) == 0x2f4c0692043ff643
    ensures Step8(134) == 0xa02497ca54616dc8 && Step8(135) == 0xdafce7026454e4b1
    ensures Step8(136) == 0x3e847f9dc45f37c0 && Step8(137) == 0x445c0f55f46abeb9
    ensures Step8(138) == 0xcb349e0da4342532 && Step8(139) == 0xb1eceec59401ac4b
    ensures Step8(140) == 0xfebc9aee5c1e814f && Step8(141) == 0x8464ea266c2b0836
    ensures Step8(142) == 0x0b0c7b7e3c7593bd && Step8(143) == 0x71d40bb60c401ac4
  {
  }

  lemma RowIs8(k: bv8)
    requires k < 16
    ensures ROW_8[Number(k)] == Step8(Wide(128 | k))
  {
    Steps8();
    Numbers();
    hide Step8, Number;
    if k == 0 { assert Wide(128 | k) == 128; } if k == 1 { assert Wide(128 | k) == 129; }
    if k == 2 { assert Wide(128 | k) == 130; } if k == 3 { assert Wide(128 | k) == 131; }
    if k == 4 { assert Wide(128 | k) == 132; } if k == 5 { assert Wide(128 | k) == 133; }
    if k == 6 { assert Wide(128 | k) == 134; } if k == 7 { assert Wide(128 | k) == 135; }
    if k == 8 { assert Wide(128 | k) == 136; } if k == 9 { assert Wide(128 | k) == 137; }
    if k == 10 { assert Wide(128 | k) == 138; } if k == 11 { assert Wide(128 | k) == 139; }
    if k == 12 { assert Wide(128 | k) == 140; } if k == 13 { assert Wide(128 | k) == 141; }
    if k == 14 { assert Wide(128 | k) == 142; } if k == 15 { assert Wide(128 | k) == 143; }
  }

  lemma Steps9()
    ensures Step8(144) == 0xe8a46c1224f5a634 && Step8(145) == 0x927c1cda14c02f4d
    ensures Step8(146) == 0x1d148d82449eb4c6 && Step8(147) == 0x67ccfd4a74ab3dbf
    ensures Step8(148) == 0x289c8961bcb410bb && Step8(149) == 0x5244f9a98c8199c2
    ensures Step8(150) == 0xdd2c68f1dcdf0249 && Step8(151) == 0xa7f41839ecea8b30
    ensures Step8(152) == 0x438c80a64ce15841 && Step8(153) == 0x3954f06e7cd4d138
    ensures Step8(154) == 0xb63c61362c8a4ab3 && Step8(155) == 0xcce411fe1cbfc3ca
    ensures Step8(156) == 0x83b465d5d4a0eece && Step8(157) == 0xf96c151de49567b7
    ensures Step8(158) == 0x76048445b4cbfc3c && Step8(159) == 0x0cdcf48d84fe7545
  {
  }

  lemma RowIs9(k: bv8)
    requires k < 16
    ensures ROW_9[Number(k)] == Step8(Wide(144 | k))
  {
    Steps9();
    Numbers();
    hide Step8, Number;
    if k == 0 { assert Wide(144 | k) == 144; } if k == 1 { assert Wide(144 | k) == 145; }
    if k == 2 { assert Wide(144 | k) == 146; } if k == 3 { assert Wide(144 | k) == 147; }
    if k == 4 { assert Wide(144 | k) == 148; } if k == 5 { assert Wide(144 | k) == 149; }
    if k == 6 { assert Wide(144 | k) == 150; } if k == 7 { assert Wide(144 | k) == 151; }
    if k == 8 { assert Wide(144 | k) == 152; } if k == 9 { assert Wide(144 | k) == 153; }
    if k == 10 { assert Wide(144 | k) == 154; } if k == 11 { assert Wide(144 | k) == 155; }
    if k == 12 { assert Wide(144 | k) == 156; } if k == 13 { assert Wide(144 | k) == 157; }
    if k == 14 { assert Wide(144 | k) == 158; } if k == 15 { assert Wide(144 | k) == 159; }
  }

  lemma Steps10()
    ensures Step8(160) == 0x6fbd6d5ebd3716b7 && Step8(161) == 0x15651d968d029fce
    ensures Step8(162) == 0x9a0d8ccedd5c0445 && Step8(163) == 0xe0d5fc06ed698d3c
    ensures Step8(164) == 0xaf85882d2576a038 && Step8(165) == 0xd55df8e515432941
    ensures Step8(166) == 0x5a3569bd451db2ca && Step8(167) == 0x20ed197575283bb3
    ensures Step8(168) == 0xc49581ead523e8c2 && Step8(169) == 0xbe4df122e51661bb
    ensures Step8(170) == 0x3125607ab548fa30 && Step8(171) == 0x4bfd10b2857d7349
    ensures Step8(172) == 0x04ad64994d625e4d && Step8(173) == 0x7e7514517d57d734
    ensures Step8(174) == 0xf11d85092d094cbf && Step8(175) == 0x8bc5f5c11d3cc5c6
  {
  }

  lemma RowIs10(k: bv8)
    requires k < 16
    ensures ROW_10[Number(k)] == Step8(Wide(160 | k))
  {
    Steps10();
    Numbers();
    hide Step8, Number;
    if k == 0 { assert Wide(160 | k) == 160; } if k == 1 { assert Wide(160 | k) == 161; }
    if k == 2 { assert Wide(160 | k) == 162; } if k == 3 { assert Wide(160 | k) == 163; }
    if k == 4 { assert Wide(160 | k) == 164; } if k == 5 { assert Wide(160 | k) == 165; }
    if k == 6 { assert Wide(160 | k) == 166; } if k == 7 { assert Wide(160 | k) == 167; }
    if k == 8 { assert Wide(160 | k) == 168; } if k == 9 { assert Wide(160 | k) == 169; }
    if k == 10 { assert Wide(160 | k) == 170; } if k == 11 { assert Wide(160 | k) == 171; }
    if k == 12 { assert Wide(160 | k) == 172; } if k == 13 { assert Wide(160 | k) == 173; }
    if k == 14 { assert Wide(160 | k) == 174; } if k == 15 { assert Wide(160 | k) == 175; }
  }

  lemma Steps11()
    ensures Step8(176) == 0x12b5926535897936 && Step8(177) == 0x686de2ad05bcf04f
    ensures Step8(178) == 0xe70573f555e26bc4 && Step8(179) == 0x9ddd033d65d7e2bd
    ensures Step8(180) == 0xd28d7716adc8cfb9 && Step8(181) == 0xa85507de9dfd46c0
    ensures Step8(182) == 0x273d9686cda3dd4b && Step8(183) == 0x5de5e64efd965432
    ensures Step8(184) == 0xb99d7ed15d9d8743 && Step8(185) == 0xc3450e196da80e3a
    ensures Step8(186) == 0x4c2d9f413df695b1 && Step8(187) == 0x36f5ef890dc31cc8
    ensures Step8(188) == 0x79a59ba2c5dc31cc && Step8(189) == 0x037deb6af5e9b8b5
    ensures Step8(190) == 0x8c157a32a5b7233e && Step8(191) == 0xf6cd0afa9582aa47
  {
  }

  lemma RowIs11(k: bv8)
    requires k < 16
    ensures ROW_11[Number(k)] == Step8(Wide(176 | k))
  {
    Steps11();
    Numbers();
    hide Step8, Number;
    if k == 0 { assert Wide(176 | k) == 176; } if k == 1 { assert Wide(176 | k) == 177; }
    if k == 2 { assert Wide(176 | k) == 178; } if k == 3 { assert Wide(176 | k) == 179; }
    if k == 4 { assert Wide(176 | k) == 180; } if k == 5 { assert Wide(176 | k) == 181; }
    if k == 6 { assert Wide(176 | k) == 182; } if k == 7 { assert Wide(176 | k) == 183; }
    if k == 8 { assert Wide(176 | k) == 184; } if k == 9 { assert Wide(176 | k) == 185; }
    if k == 10 { assert Wide(176 | k) == 186; } if k == 11 { assert Wide(176 | k) == 187; }
    if k == 12 { assert Wide(176 | k) == 188; } if k == 13 { assert Wide(176 | k) == 189; }
    if k == 14 { assert Wide(176 | k) == 190; } if k == 15 { assert Wide(176 | k) == 191; }
  }

  lemma Steps12()
    ensures Step8(192) == 0x4ad64994d625e4da && Step8(193) == 0x300e395ce6106da3
    ensures Step8(194) == 0xbf66a804b64ef628 && Step8(195) == 0xc5bed8cc867b7f51
    ensures Step8(196) == 0x8aeeace74e645255 && Step8(197) == 0xf036dc2f7e51db2c
    ensures Step8(198) == 0x7f5e4d772e0f40a7 && Step8(199) == 0x05863dbf1e3ac9de
    ensures Step8(200) == 0xe1fea520be311aaf && Step8(201) == 0x9b26d5e88e0493d6
    ensures Step8(202) == 0x144e44b0de5a085d && Step8(203) == 0x6e963478ee6f8124
    ensures Step8(204) == 0x21c640532670ac20 && Step8(205) == 0x5b1e309b16452559
    ensures Step8(206) == 0xd476a1c3461bbed2 && Step8(207) == 0xaeaed10b762e37ab
  {
  }

  lemma RowIs12(k: bv8)
    requires k < 16
    ensures ROW_12[Number(k)] == Step8(Wide(192 | k))
  {
    Steps12();
    Numbers();
    hide Step8, Number;
    if k == 0 { assert Wide(192 | k) == 192; } if k == 1 { assert Wide(192 | k) == 193; }
    if k == 2 { assert Wide(192 | k) == 194; } if k == 3 { assert Wide(192 | k) == 195; }
    if k == 4 { assert Wide(192 | k) == 196; } if k == 5 { assert Wide(192 | k) == 197; }
    if k == 6 { assert Wide(192 | k) == 198; } if k == 7 { assert Wide(192 | k) == 199; }
    if k == 8 { assert Wide(192 | k) == 200; } if k == 9 { assert Wide(192 | k) == 201; }
    if k == 10 { assert Wide(192 | k) == 202; } if k == 11 { assert Wide(192 | k) == 203; }
    if k == 12 { assert Wide(192 | k) == 204; } if k == 13 { assert Wide(192 | k) == 205; }
    if k == 14 { assert Wide(192 | k) == 206; } if k == 15 { assert Wide(192 | k) == 207; }
  }

  lemma Steps13()
    ensures Step8(208) == 0x37deb6af5e9b8b5b && Step8(209) == 0x4d06c6676eae0222
    ensures Step8(210) == 0xc26e573f3ef099a9 && Step8(211) == 0xb8b627f70ec510d0
    ensures Step8(212) == 0xf7e653dcc6da3dd4 && Step8(213) == 0x8d3e2314f6efb4ad
    ensures Step8(214) == 0x0256b24ca6b12f26 && Step8(215) == 0x788ec2849684a65f
    ensures Step8(216) == 0x9cf65a1b368f752e && Step8(217) == 0xe62e2ad306bafc57
    ensures Step8(218) == 0x6946bb8b56e467dc && Step8(219) == 0x139ecb4366d1eea5
    ensures Step8(220) == 0x5ccebf68aecec3a1 && Step8(221) == 0x2616cfa09efb4ad8
    ensures Step8(222) == 0xa97e5ef8cea5d153 && Step8(223) == 0xd3a62e30fe90582a
  {
  }

  lemma RowIs13(k: bv8)
    requires k < 16
    ensures ROW_13[Number(k)] == Step8(Wide(208 | k))
  {
    Steps13();
    Numbers();
    hide Step8, Number;
    if k == 0 { assert Wide(208 | k) == 208; } if k == 1 { assert Wide(208 | k) == 209; }
    if k == 2 { assert Wide(208 | k) == 210; } if k == 3 { assert Wide(208 | k) == 211; }
    if k == 4 { assert Wide(208 | k) == 212; } if k == 5 { assert Wide(208 | k) == 213; }
    if k == 6 { assert Wide(208 | k) == 214; } if k == 7 { assert Wide(208 | k) == 215; }
    if k == 8 { assert Wide(208 | k) == 216; } if k == 9 { assert Wide(208 | k) == 217; }
    if k == 10 { assert Wide(208 | k) == 218; } if k == 11 { assert Wide(208 | k) == 219; }
    if k == 12 { assert Wide(208 | k) == 220; } if k == 13 { assert Wide(208 | k) == 221; }
    if k == 14 { assert Wide(208 | k) == 222; } if k == 15 { assert Wide(208 | k) == 223; }
  }

  lemma Steps14()
    ensures Step8(224) == 0xb0c7b7e3c7593bd8 && Step8(225) == 0xca1fc72bf76cb2a1
    ensures Step8(226) == 0x45775673a732292a && Step8(227) == 0x3faf26bb9707a053
    ensures Step8(228) == 0x70ff52905f188d57 && Step8(229) == 0x0a2722586f2d042e
    ensures Step8(230) == 0x854fb3003f739fa5 && Step8(231) == 0xff97c3c80f4616dc
    ensures Step8(232) == 0x1bef5b57af4dc5ad && Step8(233) == 0x61372b9f9f784cd4
    ensures Step8(234) == 0xee5fbac7cf26d75f && Step8(235) == 0x9487ca0fff135e26
    ensures Step8(236) == 0xdbd7be24370c7322 && Step8(237) == 0xa10fceec0739fa5b
    ensures Step8(238) == 0x2e675fb4576761d0 && Step8(239) == 0x54bf2f7c6752e8a9
  {
  }

  lemma RowIs14(k: bv8)
    requires k < 16
    ensures ROW_14[Number(k)] == Step8(Wide(224 | k))
  {
    Steps14();
    Numbers();
    hide Step8, Number;
    if k == 0 { assert Wide(224 | k) == 224; } if k == 1 { assert Wide(224 | k) == 225; }
    if k == 2 { assert Wide(224 | k) == 226; } if k == 3 { assert Wide(224 | k) == 227; }
    if k == 4 { assert Wide(224 | k) == 228; } if k == 5 { assert Wide(224 | k) == 229; }
    if k == 6 { assert Wide(224 | k) == 230; } if k == 7 { assert Wide(224 | k) == 231; }
    if k == 8 { assert Wide(224 | k) == 232; } if k == 9 { assert Wide(224 | k) == 233; }
    if k == 10 { assert Wide(224 | k) == 234; } if k == 11 { assert Wide(224 | k) == 235; }
    if k == 12 { assert Wide(224 | k) == 236; } if k == 13 { assert Wide(224 | k) == 237; }
    if k == 14 { assert Wide(224 | k) == 238; } if k == 15 { assert Wide(224 | k) == 239; }
  }

  lemma Steps15()
    ensures Step8(240) == 0xcdcf48d84fe75459 && Step8(241) == 0xb71738107fd2dd20
    ensures Step8(242) == 0x387fa9482f8c46ab && Step8(243) == 0x42a7d9801fb9cfd2
    ensures Step8(244) == 0x0df7adabd7a6e2d6 && Step8(245) == 0x772fdd63e7936baf
    ensures Step8(246) == 0xf8474c3bb7cdf024 && Step8(247) == 0x829f3cf387f8795d
    ensures Step8(248) == 0x66e7a46c27f3aa2c && Step8(249) == 0x1c3fd4a417c62355
    ensures Step8(250) == 0x935745fc4798b8de && Step8(251) == 0xe98f353477ad31a7
    ensures Step8(252) == 0xa6df411fbfb21ca3 && Step8(253) == 0xdc0731d78f8795da
    ensures Step8(254) == 0x536fa08fdfd90e51 && Step8(255) == 0x29b7d047efec8728
  {
  }

  lemma RowIs15(k: bv8)
    requires k < 16
    ensures ROW_15[Number(k)] == Step8(Wide(240 | k))
  {
    Steps15();
    Numbers();
    hide Step8, Number;
    if k == 0 { assert Wide(240 | k) == 240; } if k == 1 { assert Wide(240 | k) == 241; }
    if k == 2 { assert Wide(240 | k) == 242; } if k == 3 { assert Wide(240 | k) == 243; }
    if k == 4 { assert Wide(240 | k) == 244; } if k == 5 { assert Wide(240 | k) == 245; }
    if k == 6 { assert Wide(240 | k) == 246; } if k == 7 { assert Wide(240 | k) == 247; }
    if k == 8 { assert Wide(240 | k) == 248; } if k == 9 { assert Wide(240 | k) == 249; }
    if k == 10 { assert Wide(240 | k) == 250; } if k == 11 { assert Wide(240 | k) == 251; }
    if k == 12 { assert Wide(240 | k) == 252; } if k == 13 { assert Wide(240 | k) == 253; }
    if k == 14 { assert Wide(240 | k) == 254; } if k == 15 { assert Wide(240 | k) == 255; }
  }

  lemma EntryIs(r: bv8, k: bv8)
    requires r < 16 && k < 16
    ensures Row(r)[Number(k)] == Step8(Wide((r << 4) | k))
  {
    hide Step8, Number, Wide;

    if r == 0 { RowIs0(k); }
    else if r == 1 { RowIs1(k); }
    else if r == 2 { RowIs2(k); }
    else if r == 3 { RowIs3(k); }
    else if r == 4 { RowIs4(k); }
    else if r == 5 { RowIs5(k); }
    else if r == 6 { RowIs6(k); }
    else if r == 7 { RowIs7(k); }
    else if r == 8 { RowIs8(k); }
    else if r == 9 { RowIs9(k); }
    else if r == 10 { RowIs10(k); }
    else if r == 11 { RowIs11(k); }
    else if r == 12 { RowIs12(k); }
    else if r == 13 { RowIs13(k); }
    else if r == 14 { RowIs14(k); }
    else { RowIs15(k); }
  }

  /** Every entry is what eight single steps make of its index. */
  lemma TableIs(i: bv8)
    ensures Table(i) == Step8(Wide(i))
  {
    hide Step8, Number, Wide, Row;
    LowHalf(i);
    EntryIs(i >> 4, i & 15);
  }
}
