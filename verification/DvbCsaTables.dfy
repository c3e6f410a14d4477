/** The constant tables of libdvbcsa: the substitution and the bit permutation of the block cipher, and
    the seven substitutions of the stream cipher. */
module DvbCsaTables {
  import opened Bytes
  import opened Tables

  /** dvbcsa_block_sbox, sixteen entries to a row. */
  function BlockSBox(x: Byte): Byte {
    var k := x & 0x0f;
    if x < 0x10 then Row(k, 0x3a, 0xea, 0x68, 0xfe, 0x33, 0xe9, 0x88, 0x1a,
                         0x83, 0xcf, 0xe1, 0x7f, 0xba, 0xe2, 0x38, 0x12)
    else if x < 0x20 then Row(k, 0xe8, 0x27, 0x61, 0x95, 0x0c, 0x36, 0xe5, 0x70,
                              0xa2, 0x06, 0x82, 0x7c, 0x17, 0xa3, 0x26, 0x49)
    else if x < 0x30 then Row(k, 0xbe, 0x7a, 0x6d, 0x47, 0xc1, 0x51, 0x8f, 0xf3,
                              0xcc, 0x5b, 0x67, 0xbd, 0xcd, 0x18, 0x08, 0xc9)
    else if x < 0x40 then Row(k, 0xff, 0x69, 0xef, 0x03, 0x4e, 0x48, 0x4a, 0x84,
                              0x3f, 0xb4, 0x10, 0x04, 0xdc, 0xf5, 0x5c, 0xc6)
    else if x < 0x50 then Row(k, 0x16, 0xab, 0xac, 0x4c, 0xf1, 0x6a, 0x2f, 0x3c,
                              0x3b, 0xd4, 0xd5, 0x94, 0xd0, 0xc4, 0x63, 0x62)
    else if x < 0x60 then Row(k, 0x71, 0xa1, 0xf9, 0x4f, 0x2e, 0xaa, 0xc5, 0x56,
                              0xe3, 0x39, 0x93, 0xce, 0x65, 0x64, 0xe4, 0x58)
    else if x < 0x70 then Row(k, 0x6c, 0x19, 0x42, 0x79, 0xdd, 0xee, 0x96, 0xf6,
                              0x8a, 0xec, 0x1e, 0x85, 0x53, 0x45, 0xde, 0xbb)
    else if x < 0x80 then Row(k, 0x7e, 0x0a, 0x9a, 0x13, 0x2a, 0x9d, 0xc2, 0x5e,
                              0x5a, 0x1f, 0x32, 0x35, 0x9c, 0xa8, 0x73, 0x30)
    else if x < 0x90 then Row(k, 0x29, 0x3d, 0xe7, 0x92, 0x87, 0x1b, 0x2b, 0x4b,
                              0xa5, 0x57, 0x97, 0x40, 0x15, 0xe6, 0xbc, 0x0e)
    else if x < 0xa0 then Row(k, 0xeb, 0xc3, 0x34, 0x2d, 0xb8, 0x44, 0x25, 0xa4,
                              0x1c, 0xc7, 0x23, 0xed, 0x90, 0x6e, 0x50, 0x00)
    else if x < 0xb0 then Row(k, 0x99, 0x9e, 0x4d, 0xd9, 0xda, 0x8d, 0x6f, 0x5f,
                              0x3e, 0xd7, 0x21, 0x74, 0x86, 0xdf, 0x6b, 0x05)
    else if x < 0xc0 then Row(k, 0x8e, 0x5d, 0x37, 0x11, 0xd2, 0x28, 0x75, 0xd6,
                              0xa7, 0x77, 0x24, 0xbf, 0xf0, 0xb0, 0x02, 0xb7)
    else if x < 0xd0 then Row(k, 0xf8, 0xfc, 0x81, 0x09, 0xb1, 0x01, 0x76, 0x91,
                              0x7d, 0x0f, 0xc8, 0xa0, 0xf2, 0xcb, 0x78, 0x60)
    else if x < 0xe0 then Row(k, 0xd1, 0xf7, 0xe0, 0xb5, 0x98, 0x22, 0xb3, 0x20,
                              0x1d, 0xa6, 0xdb, 0x7b, 0x59, 0x9f, 0xae, 0x31)
    else if x < 0xf0 then Row(k, 0xfb, 0xd3, 0xb6, 0xca, 0x43, 0x72, 0x07, 0xf4,
                              0xd8, 0x41, 0x14, 0x55, 0x0d, 0x54, 0x8b, 0xb9)
    else Row(k, 0xad, 0x46, 0x0b, 0xaf, 0x80, 0x52, 0x2c, 0xfa, 0x8c, 0x89, 0x66, 0xfd, 0xb2, 0xa9, 0x9b, 0xc0)
  }

  /** csa_block_perm, sixteen entries to a row. */
  function PermutationTable(x: Byte): Byte {
    var k := x & 0x0f;
    if x < 0x10 then Row(k, 0x00, 0x02, 0x80, 0x82, 0x20, 0x22, 0xa0, 0xa2,
                         0x10, 0x12, 0x90, 0x92, 0x30, 0x32, 0xb0, 0xb2)
    else if x < 0x20 then Row(k, 0x04, 0x06, 0x84, 0x86, 0x24, 0x26, 0xa4, 0xa6,
                              0x14, 0x16, 0x94, 0x96, 0x34, 0x36, 0xb4, 0xb6)
    else if x < 0x30 then Row(k, 0x40, 0x42, 0xc0, 0xc2, 0x60, 0x62, 0xe0, 0xe2,
                              0x50, 0x52, 0xd0, 0xd2, 0x70, 0x72, 0xf0, 0xf2)
    else if x < 0x40 then Row(k, 0x44, 0x46, 0xc4, 0xc6, 0x64, 0x66, 0xe4, 0xe6,
                              0x54, 0x56, 0xd4, 0xd6, 0x74, 0x76, 0xf4, 0xf6)
    else if x < 0x50 then Row(k, 0x01, 0x03, 0x81, 0x83, 0x21, 0x23, 0xa1, 0xa3,
                              0x11, 0x13, 0x91, 0x93, 0x31, 0x33, 0xb1, 0xb3)
    else if x < 0x60 then Row(k, 0x05, 0x07, 0x85, 0x87, 0x25, 0x27, 0xa5, 0xa7,
                              0x15, 0x17, 0x95, 0x97, 0x35, 0x37, 0xb5, 0xb7)
    else if x < 0x70 then Row(k, 0x41, 0x43, 0xc1, 0xc3, 0x61, 0x63, 0xe1, 0xe3,
                              0x51, 0x53, 0xd1, 0xd3, 0x71, 0x73, 0xf1, 0xf3)
    else if x < 0x80 then Row(k, 0x45, 0x47, 0xc5, 0xc7, 0x65, 0x67, 0xe5, 0xe7,
                              0x55, 0x57, 0xd5, 0xd7, 0x75, 0x77, 0xf5, 0xf7)
    else if x < 0x90 then Row(k, 0x08, 0x0a, 0x88, 0x8a, 0x28, 0x2a, 0xa8, 0xaa,
                              0x18, 0x1a, 0x98, 0x9a, 0x38, 0x3a, 0xb8, 0xba)
    else if x < 0xa0 then Row(k, 0x0c, 0x0e, 0x8c, 0x8e, 0x2c, 0x2e, 0xac, 0xae,
                              0x1c, 0x1e, 0x9c, 0x9e, 0x3c, 0x3e, 0xbc, 0xbe)
    else if x < 0xb0 then Row(k, 0x48, 0x4a, 0xc8, 0xca, 0x68, 0x6a, 0xe8, 0xea,
                              0x58, 0x5a, 0xd8, 0xda, 0x78, 0x7a, 0xf8, 0xfa)
    else if x < 0xc0 then Row(k, 0x4c, 0x4e, 0xcc, 0xce, 0x6c, 0x6e, 0xec, 0xee,
                              0x5c, 0x5e, 0xdc, 0xde, 0x7c, 0x7e, 0xfc, 0xfe)
    else if x < 0xd0 then Row(k, 0x09, 0x0b, 0x89, 0x8b, 0x29, 0x2b, 0xa9, 0xab,
                              0x19, 0x1b, 0x99, 0x9b, 0x39, 0x3b, 0xb9, 0xbb)
    else if x < 0xe0 then Row(k, 0x0d, 0x0f, 0x8d, 0x8f, 0x2d, 0x2f, 0xad, 0xaf,
                              0x1d, 0x1f, 0x9d, 0x9f, 0x3d, 0x3f, 0xbd, 0xbf)
    else if x < 0xf0 then Row(k, 0x49, 0x4b, 0xc9, 0xcb, 0x69, 0x6b, 0xe9, 0xeb,
                              0x59, 0x5b, 0xd9, 0xdb, 0x79, 0x7b, 0xf9, 0xfb)
    else Row(k, 0x4d, 0x4f, 0xcd, 0xcf, 0x6d, 0x6f, 0xed, 0xef, 0x5d, 0x5f, 0xdd, 0xdf, 0x7d, 0x7f, 0xfd, 0xff)
  }

  /** Entry `k` of a row of the stream cipher's tables. */
  function Entry(k: Byte, v0: bv32, v1: bv32, v2: bv32, v3: bv32, v4: bv32, v5: bv32, v6: bv32, v7: bv32,
                 v8: bv32, v9: bv32, v10: bv32, v11: bv32, v12: bv32, v13: bv32, v14: bv32, v15: bv32): bv32
  {
    if k < 8 then
      (if k < 4 then (if k < 2 then (if k < 1 then v0 else v1) else (if k < 3 then v2 else v3))
       else (if k < 6 then (if k < 5 then v4 else v5) else (if k < 7 then v6 else v7)))
    else
      (if k < 12 then (if k < 10 then (if k < 9 then v8 else v9) else (if k < 11 then v10 else v11))
       else (if k < 14 then (if k < 13 then v12 else v13) else (if k < 15 then v14 else v15)))
  }

  function StreamTable0(i: Byte): bv32 {
    var k := i & 0x0f;
    if i < 0x10 then Entry(k, 0x0001, 0x0000, 0x0400, 0x0400, 0x0001, 0x0401, 0x0401, 0x0000,
                              0x0401, 0x0001, 0x0001, 0x0000, 0x0400, 0x0400, 0x0000, 0x0401)
    else Entry(k, 0x0000, 0x0401, 0x0401, 0x0000, 0x0001, 0x0001, 0x0400, 0x0400,
                  0x0001, 0x0001, 0x0000, 0x0401, 0x0400, 0x0400, 0x0401, 0x0000)
  }

  function StreamTable1(i: Byte): bv32 {
    var k := i & 0x0f;
    if i < 0x10 then Entry(k, 0x0802, 0x0800, 0x0002, 0x0800, 0x0802, 0x0002, 0x0002, 0x0800,
                              0x0800, 0x0802, 0x0000, 0x0002, 0x0000, 0x0000, 0x0000, 0x0802)
    else Entry(k, 0x0802, 0x0800, 0x0800, 0x0002, 0x0002, 0x0802, 0x0800, 0x0802,
                  0x0000, 0x0000, 0x0000, 0x0802, 0x0800, 0x0002, 0x0002, 0x0000)
  }

  function StreamTable2(i: Byte): bv32 {
    var k := i & 0x0f;
    if i < 0x10 then Entry(k, 0x0010, 0x0000, 0x0010, 0x0010, 0x0010, 0x0014, 0x0000, 0x0004,
                              0x0004, 0x0014, 0x0014, 0x0014, 0x0014, 0x0000, 0x0004, 0x0000)
    else Entry(k, 0x0014, 0x0000, 0x0004, 0x0010, 0x0004, 0x0014, 0x0014, 0x0004,
                  0x0000, 0x0004, 0x0000, 0x0004, 0x0010, 0x0000, 0x0010, 0x0010)
  }

  function StreamTable3(i: Byte): bv32 {
    var k := i & 0x0f;
    if i < 0x10 then Entry(k, 0x0028, 0x0008, 0x0020, 0x0028, 0x0020, 0x0000, 0x0020, 0x0008,
                              0x0008, 0x0020, 0x0000, 0x0008, 0x0000, 0x0028, 0x0028, 0x0000)
    else Entry(k, 0x0008, 0x0000, 0x0028, 0x0008, 0x0028, 0x0020, 0x0028, 0x0000,
                  0x0000, 0x0028, 0x0020, 0x0000, 0x0020, 0x0008, 0x0008, 0x0020)
  }

  function StreamTable4(i: Byte): bv32 {
    var k := i & 0x0f;
    if i < 0x10 then Entry(k, 0x0100, 0x0000, 0x0000, 0x0040, 0x0140, 0x0100, 0x0140, 0x0100,
                              0x0140, 0x0140, 0x0000, 0x0040, 0x0100, 0x0040, 0x0040, 0x0000)
    else Entry(k, 0x0140, 0x0100, 0x0000, 0x0100, 0x0140, 0x0000, 0x0040, 0x0040,
                  0x0100, 0x0140, 0x0000, 0x0040, 0x0100, 0x0000, 0x0040, 0x0140)
  }

  function StreamTable5(i: Byte): bv32 {
    var k := i & 0x0f;
    if i < 0x10 then Entry(k, 0x0000, 0x0080, 0x0200, 0x0280, 0x0080, 0x0200, 0x0200, 0x0000,
                              0x0000, 0x0080, 0x0280, 0x0000, 0x0200, 0x0280, 0x0080, 0x0280)
    else Entry(k, 0x0200, 0x0280, 0x0000, 0x0200, 0x0280, 0x0000, 0x0080, 0x0080,
                  0x0200, 0x0080, 0x0080, 0x0200, 0x0000, 0x0280, 0x0280, 0x0000)
  }

  function StreamTable6(i: Byte): bv32 {
    var k := i & 0x0f;
    if i < 0x10 then Entry(k, 0x0000, 0x0000, 0x1000, 0x2000, 0x3000, 0x3000, 0x0000, 0x1000,
                              0x3000, 0x1000, 0x2000, 0x2000, 0x2000, 0x0000, 0x1000, 0x3000)
    else Entry(k, 0x3000, 0x1000, 0x2000, 0x2000, 0x2000, 0x3000, 0x0000, 0x0000,
                  0x2000, 0x1000, 0x1000, 0x3000, 0x0000, 0x0000, 0x1000, 0x3000)
  }

  /** csa_stream_cdef in four parts, by q and the carry; an index holds Z over E. */
  function SumTable(i: bv32): bv32
    requires i < 0x400
  {
    var x := (i & 0xff) as Byte;
    if i < 0x100 then SumTable00(x)
    else if i < 0x200 then SumTable01(x)
    else if i < 0x300 then SumTable10(x)
    else SumTable11(x)
  }

  function SumTable00(x: Byte): bv32 {
    var k := x & 0x0f;
    if x < 0x10 then Entry(k, 0x0000, 0x0101, 0x0202, 0x0303, 0x0404, 0x0505, 0x0606, 0x0707,
                              0x0808, 0x0909, 0x0a0a, 0x0b0b, 0x0c0c, 0x0d0d, 0x0e0e, 0x0f0f)
    else if x < 0x20 then Entry(k, 0x0001, 0x0100, 0x0203, 0x0302, 0x0405, 0x0504, 0x0607, 0x0706,
                                   0x0809, 0x0908, 0x0a0b, 0x0b0a, 0x0c0d, 0x0d0c, 0x0e0f, 0x0f0e)
    else if x < 0x30 then Entry(k, 0x0002, 0x0103, 0x0200, 0x0301, 0x0406, 0x0507, 0x0604, 0x0705,
                                   0x080a, 0x090b, 0x0a08, 0x0b09, 0x0c0e, 0x0d0f, 0x0e0c, 0x0f0d)
    else if x < 0x40 then Entry(k, 0x0003, 0x0102, 0x0201, 0x0300, 0x0407, 0x0506, 0x0605, 0x0704,
                                   0x080b, 0x090a, 0x0a09, 0x0b08, 0x0c0f, 0x0d0e, 0x0e0d, 0x0f0c)
    else if x < 0x50 then Entry(k, 0x0004, 0x0105, 0x0206, 0x0307, 0x0400, 0x0501, 0x0602, 0x0703,
                                   0x080c, 0x090d, 0x0a0e, 0x0b0f, 0x0c08, 0x0d09, 0x0e0a, 0x0f0b)
    else if x < 0x60 then Entry(k, 0x0005, 0x0104, 0x0207, 0x0306, 0x0401, 0x0500, 0x0603, 0x0702,
                                   0x080d, 0x090c, 0x0a0f, 0x0b0e, 0x0c09, 0x0d08, 0x0e0b, 0x0f0a)
    else if x < 0x70 then Entry(k, 0x0006, 0x0107, 0x0204, 0x0305, 0x0402, 0x0503, 0x0600, 0x0701,
                                   0x080e, 0x090f, 0x0a0c, 0x0b0d, 0x0c0a, 0x0d0b, 0x0e08, 0x0f09)
    else if x < 0x80 then Entry(k, 0x0007, 0x0106, 0x0205, 0x0304, 0x0403, 0x0502, 0x0601, 0x0700,
                                   0x080f, 0x090e, 0x0a0d, 0x0b0c, 0x0c0b, 0x0d0a, 0x0e09, 0x0f08)
    else if x < 0x90 then Entry(k, 0x0008, 0x0109, 0x020a, 0x030b, 0x040c, 0x050d, 0x060e, 0x070f,
                                   0x0800, 0x0901, 0x0a02, 0x0b03, 0x0c04, 0x0d05, 0x0e06, 0x0f07)
    else if x < 0xa0 then Entry(k, 0x0009, 0x0108, 0x020b, 0x030a, 0x040d, 0x050c, 0x060f, 0x070e,
                                   0x0801, 0x0900, 0x0a03, 0x0b02, 0x0c05, 0x0d04, 0x0e07, 0x0f06)
    else if x < 0xb0 then Entry(k, 0x000a, 0x010b, 0x0208, 0x0309, 0x040e, 0x050f, 0x060c, 0x070d,
                                   0x0802, 0x0903, 0x0a00, 0x0b01, 0x0c06, 0x0d07, 0x0e04, 0x0f05)
    else if x < 0xc0 then Entry(k, 0x000b, 0x010a, 0x0209, 0x0308, 0x040f, 0x050e, 0x060d, 0x070c,
                                   0x0803, 0x0902, 0x0a01, 0x0b00, 0x0c07, 0x0d06, 0x0e05, 0x0f04)
    else if x < 0xd0 then Entry(k, 0x000c, 0x010d, 0x020e, 0x030f, 0x0408, 0x0509, 0x060a, 0x070b,
                                   0x0804, 0x0905, 0x0a06, 0x0b07, 0x0c00, 0x0d01, 0x0e02, 0x0f03)
    else if x < 0xe0 then Entry(k, 0x000d, 0x010c, 0x020f, 0x030e, 0x0409, 0x0508, 0x060b, 0x070a,
                                   0x0805, 0x0904, 0x0a07, 0x0b06, 0x0c01, 0x0d00, 0x0e03, 0x0f02)
    else if x < 0xf0 then Entry(k, 0x000e, 0x010f, 0x020c, 0x030d, 0x040a, 0x050b, 0x0608, 0x0709,
                                   0x0806, 0x0907, 0x0a04, 0x0b05, 0x0c02, 0x0d03, 0x0e00, 0x0f01)
    else Entry(k, 0x000f, 0x010e, 0x020d, 0x030c, 0x040b, 0x050a, 0x0609, 0x0708,
                  0x0807, 0x0906, 0x0a05, 0x0b04, 0x0c03, 0x0d02, 0x0e01, 0x0f00)
  }

  function SumTable01(x: Byte): bv32 {
    var k := x & 0x0f;
    if x < 0x10 then Entry(k, 0x1000, 0x1101, 0x1202, 0x1303, 0x1404, 0x1505, 0x1606, 0x1707,
                              0x1808, 0x1909, 0x1a0a, 0x1b0b, 0x1c0c, 0x1d0d, 0x1e0e, 0x1f0f)
    else if x < 0x20 then Entry(k, 0x1001, 0x1100, 0x1203, 0x1302, 0x1405, 0x1504, 0x1607, 0x1706,
                                   0x1809, 0x1908, 0x1a0b, 0x1b0a, 0x1c0d, 0x1d0c, 0x1e0f, 0x1f0e)
    else if x < 0x30 then Entry(k, 0x1002, 0x1103, 0x1200, 0x1301, 0x1406, 0x1507, 0x1604, 0x1705,
                                   0x180a, 0x190b, 0x1a08, 0x1b09, 0x1c0e, 0x1d0f, 0x1e0c, 0x1f0d)
    else if x < 0x40 then Entry(k, 0x1003, 0x1102, 0x1201, 0x1300, 0x1407, 0x1506, 0x1605, 0x1704,
                                   0x180b, 0x190a, 0x1a09, 0x1b08, 0x1c0f, 0x1d0e, 0x1e0d, 0x1f0c)
    else if x < 0x50 then Entry(k, 0x1004, 0x1105, 0x1206, 0x1307, 0x1400, 0x1501, 0x1602, 0x1703,
                                   0x180c, 0x190d, 0x1a0e, 0x1b0f, 0x1c08, 0x1d09, 0x1e0a, 0x1f0b)
    else if x < 0x60 then Entry(k, 0x1005, 0x1104, 0x1207, 0x1306, 0x1401, 0x1500, 0x1603, 0x1702,
                                   0x180d, 0x190c, 0x1a0f, 0x1b0e, 0x1c09, 0x1d08, 0x1e0b, 0x1f0a)
    else if x < 0x70 then Entry(k, 0x1006, 0x1107, 0x1204, 0x1305, 0x1402, 0x1503, 0x1600, 0x1701,
                                   0x180e, 0x190f, 0x1a0c, 0x1b0d, 0x1c0a, 0x1d0b, 0x1e08, 0x1f09)
    else if x < 0x80 then Entry(k, 0x1007, 0x1106, 0x1205, 0x1304, 0x1403, 0x1502, 0x1601, 0x1700,
                                   0x180f, 0x190e, 0x1a0d, 0x1b0c, 0x1c0b, 0x1d0a, 0x1e09, 0x1f08)
    else if x < 0x90 then Entry(k, 0x1008, 0x1109, 0x120a, 0x130b, 0x140c, 0x150d, 0x160e, 0x170f,
                                   0x1800, 0x1901, 0x1a02, 0x1b03, 0x1c04, 0x1d05, 0x1e06, 0x1f07)
    else if x < 0xa0 then Entry(k, 0x1009, 0x1108, 0x120b, 0x130a, 0x140d, 0x150c, 0x160f, 0x170e,
                                   0x1801, 0x1900, 0x1a03, 0x1b02, 0x1c05, 0x1d04, 0x1e07, 0x1f06)
    else if x < 0xb0 then Entry(k, 0x100a, 0x110b, 0x1208, 0x1309, 0x140e, 0x150f, 0x160c, 0x170d,
                                   0x1802, 0x1903, 0x1a00, 0x1b01, 0x1c06, 0x1d07, 0x1e04, 0x1f05)
    else if x < 0xc0 then Entry(k, 0x100b, 0x110a, 0x1209, 0x1308, 0x140f, 0x150e, 0x160d, 0x170c,
                                   0x1803, 0x1902, 0x1a01, 0x1b00, 0x1c07, 0x1d06, 0x1e05, 0x1f04)
    else if x < 0xd0 then Entry(k, 0x100c, 0x110d, 0x120e, 0x130f, 0x1408, 0x1509, 0x160a, 0x170b,
                                   0x1804, 0x1905, 0x1a06, 0x1b07, 0x1c00, 0x1d01, 0x1e02, 0x1f03)
    else if x < 0xe0 then Entry(k, 0x100d, 0x110c, 0x120f, 0x130e, 0x1409, 0x1508, 0x160b, 0x170a,
                                   0x1805, 0x1904, 0x1a07, 0x1b06, 0x1c01, 0x1d00, 0x1e03, 0x1f02)
    else if x < 0xf0 then Entry(k, 0x100e, 0x110f, 0x120c, 0x130d, 0x140a, 0x150b, 0x1608, 0x1709,
                                   0x1806, 0x1907, 0x1a04, 0x1b05, 0x1c02, 0x1d03, 0x1e00, 0x1f01)
    else Entry(k, 0x100f, 0x110e, 0x120d, 0x130c, 0x140b, 0x150a, 0x1609, 0x1708,
                  0x1807, 0x1906, 0x1a05, 0x1b04, 0x1c03, 0x1d02, 0x1e01, 0x1f00)
  }

  function SumTable10(x: Byte): bv32 {
    var k := x & 0x0f;
    if x < 0x10 then Entry(k, 0x0000, 0x0101, 0x0202, 0x0303, 0x0404, 0x0505, 0x0606, 0x0707,
                              0x0808, 0x0909, 0x0a0a, 0x0b0b, 0x0c0c, 0x0d0d, 0x0e0e, 0x0f0f)
    else if x < 0x20 then Entry(k, 0x0101, 0x0200, 0x0303, 0x0402, 0x0505, 0x0604, 0x0707, 0x0806,
                                   0x0909, 0x0a08, 0x0b0b, 0x0c0a, 0x0d0d, 0x0e0c, 0x0f0f, 0x100e)
    else if x < 0x30 then Entry(k, 0x0202, 0x0303, 0x0400, 0x0501, 0x0606, 0x0707, 0x0804, 0x0905,
                                   0x0a0a, 0x0b0b, 0x0c08, 0x0d09, 0x0e0e, 0x0f0f, 0x100c, 0x110d)
    else if x < 0x40 then Entry(k, 0x0303, 0x0402, 0x0501, 0x0600, 0x0707, 0x0806, 0x0905, 0x0a04,
                                   0x0b0b, 0x0c0a, 0x0d09, 0x0e08, 0x0f0f, 0x100e, 0x110d, 0x120c)
    else if x < 0x50 then Entry(k, 0x0404, 0x0505, 0x0606, 0x0707, 0x0800, 0x0901, 0x0a02, 0x0b03,
                                   0x0c0c, 0x0d0d, 0x0e0e, 0x0f0f, 0x1008, 0x1109, 0x120a, 0x130b)
    else if x < 0x60 then Entry(k, 0x0505, 0x0604, 0x0707, 0x0806, 0x0901, 0x0a00, 0x0b03, 0x0c02,
                                   0x0d0d, 0x0e0c, 0x0f0f, 0x100e, 0x1109, 0x1208, 0x130b, 0x140a)
    else if x < 0x70 then Entry(k, 0x0606, 0x0707, 0x0804, 0x0905, 0x0a02, 0x0b03, 0x0c00, 0x0d01,
                                   0x0e0e, 0x0f0f, 0x100c, 0x110d, 0x120a, 0x130b, 0x1408, 0x1509)
    else if x < 0x80 then Entry(k, 0x0707, 0x0806, 0x0905, 0x0a04, 0x0b03, 0x0c02, 0x0d01, 0x0e00,
                                   0x0f0f, 0x100e, 0x110d, 0x120c, 0x130b, 0x140a, 0x1509, 0x1608)
    else if x < 0x90 then Entry(k, 0x0808, 0x0909, 0x0a0a, 0x0b0b, 0x0c0c, 0x0d0d, 0x0e0e, 0x0f0f,
                                   0x1000, 0x1101, 0x1202, 0x1303, 0x1404, 0x1505, 0x1606, 0x1707)
    else if x < 0xa0 then Entry(k, 0x0909, 0x0a08, 0x0b0b, 0x0c0a, 0x0d0d, 0x0e0c, 0x0f0f, 0x100e,
                                   0x1101, 0x1200, 0x1303, 0x1402, 0x1505, 0x1604, 0x1707, 0x1806)
    else if x < 0xb0 then Entry(k, 0x0a0a, 0x0b0b, 0x0c08, 0x0d09, 0x0e0e, 0x0f0f, 0x100c, 0x110d,
                                   0x1202, 0x1303, 0x1400, 0x1501, 0x1606, 0x1707, 0x1804, 0x1905)
    else if x < 0xc0 then Entry(k, 0x0b0b, 0x0c0a, 0x0d09, 0x0e08, 0x0f0f, 0x100e, 0x110d, 0x120c,
                                   0x1303, 0x1402, 0x1501, 0x1600, 0x1707, 0x1806, 0x1905, 0x1a04)
    else if x < 0xd0 then Entry(k, 0x0c0c, 0x0d0d, 0x0e0e, 0x0f0f, 0x1008, 0x1109, 0x120a, 0x130b,
                                   0x1404, 0x1505, 0x1606, 0x1707, 0x1800, 0x1901, 0x1a02, 0x1b03)
    else if x < 0xe0 then Entry(k, 0x0d0d, 0x0e0c, 0x0f0f, 0x100e, 0x1109, 0x1208, 0x130b, 0x140a,
                                   0x1505, 0x1604, 0x1707, 0x1806, 0x1901, 0x1a00, 0x1b03, 0x1c02)
    else if x < 0xf0 then Entry(k, 0x0e0e, 0x0f0f, 0x100c, 0x110d, 0x120a, 0x130b, 0x1408, 0x1509,
                                   0x1606, 0x1707, 0x1804, 0x1905, 0x1a02, 0x1b03, 0x1c00, 0x1d01)
    else Entry(k, 0x0f0f, 0x100e, 0x110d, 0x120c, 0x130b, 0x140a, 0x1509, 0x1608,
                  0x1707, 0x1806, 0x1905, 0x1a04, 0x1b03, 0x1c02, 0x1d01, 0x1e00)
  }

  function SumTable11(x: Byte): bv32 {
    var k := x & 0x0f;
    if x < 0x10 then Entry(k, 0x0100, 0x0201, 0x0302, 0x0403, 0x0504, 0x0605, 0x0706, 0x0807,
                              0x0908, 0x0a09, 0x0b0a, 0x0c0b, 0x0d0c, 0x0e0d, 0x0f0e, 0x100f)
    else if x < 0x20 then Entry(k, 0x0201, 0x0300, 0x0403, 0x0502, 0x0605, 0x0704, 0x0807, 0x0906,
                                   0x0a09, 0x0b08, 0x0c0b, 0x0d0a, 0x0e0d, 0x0f0c, 0x100f, 0x110e)
    else if x < 0x30 then Entry(k, 0x0302, 0x0403, 0x0500, 0x0601, 0x0706, 0x0807, 0x0904, 0x0a05,
                                   0x0b0a, 0x0c0b, 0x0d08, 0x0e09, 0x0f0e, 0x100f, 0x110c, 0x120d)
    else if x < 0x40 then Entry(k, 0x0403, 0x0502, 0x0601, 0x0700, 0x0807, 0x0906, 0x0a05, 0x0b04,
                                   0x0c0b, 0x0d0a, 0x0e09, 0x0f08, 0x100f, 0x110e, 0x120d, 0x130c)
    else if x < 0x50 then Entry(k, 0x0504, 0x0605, 0x0706, 0x0807, 0x0900, 0x0a01, 0x0b02, 0x0c03,
                                   0x0d0c, 0x0e0d, 0x0f0e, 0x100f, 0x1108, 0x1209, 0x130a, 0x140b)
    else if x < 0x60 then Entry(k, 0x0605, 0x0704, 0x0807, 0x0906, 0x0a01, 0x0b00, 0x0c03, 0x0d02,
                                   0x0e0d, 0x0f0c, 0x100f, 0x110e, 0x1209, 0x1308, 0x140b, 0x150a)
    else if x < 0x70 then Entry(k, 0x0706, 0x0807, 0x0904, 0x0a05, 0x0b02, 0x0c03, 0x0d00, 0x0e01,
                                   0x0f0e, 0x100f, 0x110c, 0x120d, 0x130a, 0x140b, 0x1508, 0x1609)
    else if x < 0x80 then Entry(k, 0x0807, 0x0906, 0x0a05, 0x0b04, 0x0c03, 0x0d02, 0x0e01, 0x0f00,
                                   0x100f, 0x110e, 0x120d, 0x130c, 0x140b, 0x150a, 0x1609, 0x1708)
    else if x < 0x90 then Entry(k, 0x0908, 0x0a09, 0x0b0a, 0x0c0b, 0x0d0c, 0x0e0d, 0x0f0e, 0x100f,
                                   0x1100, 0x1201, 0x1302, 0x1403, 0x1504, 0x1605, 0x1706, 0x1807)
    else if x < 0xa0 then Entry(k, 0x0a09, 0x0b08, 0x0c0b, 0x0d0a, 0x0e0d, 0x0f0c, 0x100f, 0x110e,
                                   0x1201, 0x1300, 0x1403, 0x1502, 0x1605, 0x1704, 0x1807, 0x1906)
    else if x < 0xb0 then Entry(k, 0x0b0a, 0x0c0b, 0x0d08, 0x0e09, 0x0f0e, 0x100f, 0x110c, 0x120d,
                                   0x1302, 0x1403, 0x1500, 0x1601, 0x1706, 0x1807, 0x1904, 0x1a05)
    else if x < 0xc0 then Entry(k, 0x0c0b, 0x0d0a, 0x0e09, 0x0f08, 0x100f, 0x110e, 0x120d, 0x130c,
                                   0x1403, 0x1502, 0x1601, 0x1700, 0x1807, 0x1906, 0x1a05, 0x1b04)
    else if x < 0xd0 then Entry(k, 0x0d0c, 0x0e0d, 0x0f0e, 0x100f, 0x1108, 0x1209, 0x130a, 0x140b,
                                   0x1504, 0x1605, 0x1706, 0x1807, 0x1900, 0x1a01, 0x1b02, 0x1c03)
    else if x < 0xe0 then Entry(k, 0x0e0d, 0x0f0c, 0x100f, 0x110e, 0x1209, 0x1308, 0x140b, 0x150a,
                                   0x1605, 0x1704, 0x1807, 0x1906, 0x1a01, 0x1b00, 0x1c03, 0x1d02)
    else if x < 0xf0 then Entry(k, 0x0f0e, 0x100f, 0x110c, 0x120d, 0x130a, 0x140b, 0x1508, 0x1609,
                                   0x1706, 0x1807, 0x1904, 0x1a05, 0x1b02, 0x1c03, 0x1d00, 0x1e01)
    else Entry(k, 0x100f, 0x110e, 0x120d, 0x130c, 0x140b, 0x150a, 0x1609, 0x1708,
                  0x1807, 0x1906, 0x1a05, 0x1b04, 0x1c03, 0x1d02, 0x1e01, 0x1f00)
  }
}
