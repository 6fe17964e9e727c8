/** The 256-entry table of src/core/crc32c.cc and the check of every entry. */
module Crc32cTable {

  /** The Castagnoli polynomial without its leading term, bit-reflected. */
  const Poly: bv32 := 0x82f63b78

  /** One step of the division register: shift out one bit, subtract the divisor if it was set. */
  function BitStep(l: bv32): bv32 {
    if l & 1 == 1 then (l >> 1) ^ Poly else l >> 1
  }

  /** Eight bit steps: what one table look-up stands for. */
  function ByteStep(l: bv32): bv32 {
    BitStep(BitStep(BitStep(BitStep(BitStep(BitStep(BitStep(BitStep(l))))))))
  }

  function Row0(c: bv32): bv32 {
    if c == 0x00 then 0x00000000 else if c == 0x01 then 0xf26b8303 else
    if c == 0x02 then 0xe13b70f7 else if c == 0x03 then 0x1350f3f4 else
    if c == 0x04 then 0xc79a971f else if c == 0x05 then 0x35f1141c else
    if c == 0x06 then 0x26a1e7e8 else if c == 0x07 then 0xd4ca64eb else
    if c == 0x08 then 0x8ad958cf else if c == 0x09 then 0x78b2dbcc else
    if c == 0x0a then 0x6be22838 else if c == 0x0b then 0x9989ab3b else
    if c == 0x0c then 0x4d43cfd0 else if c == 0x0d then 0xbf284cd3 else
    if c == 0x0e then 0xac78bf27 else
    0x5e133c24
  }

  function Row1(c: bv32): bv32 {
    if c == 0x10 then 0x105ec76f else if c == 0x11 then 0xe235446c else
    if c == 0x12 then 0xf165b798 else if c == 0x13 then 0x030e349b else
    if c == 0x14 then 0xd7c45070 else if c == 0x15 then 0x25afd373 else
    if c == 0x16 then 0x36ff2087 else if c == 0x17 then 0xc494a384 else
    if c == 0x18 then 0x9a879fa0 else if c == 0x19 then 0x68ec1ca3 else
    if c == 0x1a then 0x7bbcef57 else if c == 0x1b then 0x89d76c54 else
    if c == 0x1c then 0x5d1d08bf else if c == 0x1d then 0xaf768bbc else
    if c == 0x1e then 0xbc267848 else
    0x4e4dfb4b
  }

  function Row2(c: bv32): bv32 {
    if c == 0x20 then 0x20bd8ede else if c == 0x21 then 0xd2d60ddd else
    if c == 0x22 then 0xc186fe29 else if c == 0x23 then 0x33ed7d2a else
    if c == 0x24 then 0xe72719c1 else if c == 0x25 then 0x154c9ac2 else
    if c == 0x26 then 0x061c6936 else if c == 0x27 then 0xf477ea35 else
    if c == 0x28 then 0xaa64d611 else if c == 0x29 then 0x580f5512 else
    if c == 0x2a then 0x4b5fa6e6 else if c == 0x2b then 0xb93425e5 else
    if c == 0x2c then 0x6dfe410e else if c == 0x2d then 0x9f95c20d else
    if c == 0x2e then 0x8cc531f9 else
    0x7eaeb2fa
  }

  function Row3(c: bv32): bv32 {
    if c == 0x30 then 0x30e349b1 else if c == 0x31 then 0xc288cab2 else
    if c == 0x32 then 0xd1d83946 else if c == 0x33 then 0x23b3ba45 else
    if c == 0x34 then 0xf779deae else if c == 0x35 then 0x05125dad else
    if c == 0x36 then 0x1642ae59 else if c == 0x37 then 0xe4292d5a else
    if c == 0x38 then 0xba3a117e else if c == 0x39 then 0x4851927d else
    if c == 0x3a then 0x5b016189 else if c == 0x3b then 0xa96ae28a else
    if c == 0x3c then 0x7da08661 else if c == 0x3d then 0x8fcb0562 else
    if c == 0x3e then 0x9c9bf696 else
    0x6ef07595
  }

  function Row4(c: bv32): bv32 {
    if c == 0x40 then 0x417b1dbc else if c == 0x41 then 0xb3109ebf else
    if c == 0x42 then 0xa0406d4b else if c == 0x43 then 0x522bee48 else
    if c == 0x44 then 0x86e18aa3 else if c == 0x45 then 0x748a09a0 else
    if c == 0x46 then 0x67dafa54 else if c == 0x47 then 0x95b17957 else
    if c == 0x48 then 0xcba24573 else if c == 0x49 then 0x39c9c670 else
    if c == 0x4a then 0x2a993584 else if c == 0x4b then 0xd8f2b687 else
    if c == 0x4c then 0x0c38d26c else if c == 0x4d then 0xfe53516f else
    if c == 0x4e then 0xed03a29b else
    0x1f682198
  }

  function Row5(c: bv32): bv32 {
    if c == 0x50 then 0x5125dad3 else if c == 0x51 then 0xa34e59d0 else
    if c == 0x52 then 0xb01eaa24 else if c == 0x53 then 0x42752927 else
    if c == 0x54 then 0x96bf4dcc else if c == 0x55 then 0x64d4cecf else
    if c == 0x56 then 0x77843d3b else if c == 0x57 then 0x85efbe38 else
    if c == 0x58 then 0xdbfc821c else if c == 0x59 then 0x2997011f else
    if c == 0x5a then 0x3ac7f2eb else if c == 0x5b then 0xc8ac71e8 else
    if c == 0x5c then 0x1c661503 else if c == 0x5d then 0xee0d9600 else
    if c == 0x5e then 0xfd5d65f4 else
    0x0f36e6f7
  }

  function Row6(c: bv32): bv32 {
    if c == 0x60 then 0x61c69362 else if c == 0x61 then 0x93ad1061 else
    if c == 0x62 then 0x80fde395 else if c == 0x63 then 0x72966096 else
    if c == 0x64 then 0xa65c047d else if c == 0x65 then 0x5437877e else
    if c == 0x66 then 0x4767748a else if c == 0x67 then 0xb50cf789 else
    if c == 0x68 then 0xeb1fcbad else if c == 0x69 then 0x197448ae else
    if c == 0x6a then 0x0a24bb5a else if c == 0x6b then 0xf84f3859 else
    if c == 0x6c then 0x2c855cb2 else if c == 0x6d then 0xdeeedfb1 else
    if c == 0x6e then 0xcdbe2c45 else
    0x3fd5af46
  }

  function Row7(c: bv32): bv32 {
    if c == 0x70 then 0x7198540d else if c == 0x71 then 0x83f3d70e else
    if c == 0x72 then 0x90a324fa else if c == 0x73 then 0x62c8a7f9 else
    if c == 0x74 then 0xb602c312 else if c == 0x75 then 0x44694011 else
    if c == 0x76 then 0x5739b3e5 else if c == 0x77 then 0xa55230e6 else
    if c == 0x78 then 0xfb410cc2 else if c == 0x79 then 0x092a8fc1 else
    if c == 0x7a then 0x1a7a7c35 else if c == 0x7b then 0xe811ff36 else
    if c == 0x7c then 0x3cdb9bdd else if c == 0x7d then 0xceb018de else
    if c == 0x7e then 0xdde0eb2a else
    0x2f8b6829
  }

  function Row8(c: bv32): bv32 {
    if c == 0x80 then 0x82f63b78 else if c == 0x81 then 0x709db87b else
    if c == 0x82 then 0x63cd4b8f else if c == 0x83 then 0x91a6c88c else
    if c == 0x84 then 0x456cac67 else if c == 0x85 then 0xb7072f64 else
    if c == 0x86 then 0xa457dc90 else if c == 0x87 then 0x563c5f93 else
    if c == 0x88 then 0x082f63b7 else if c == 0x89 then 0xfa44e0b4 else
    if c == 0x8a then 0xe9141340 else if c == 0x8b then 0x1b7f9043 else
    if c == 0x8c then 0xcfb5f4a8 else if c == 0x8d then 0x3dde77ab else
    if c == 0x8e then 0x2e8e845f else
    0xdce5075c
  }

  function Row9(c: bv32): bv32 {
    if c == 0x90 then 0x92a8fc17 else if c == 0x91 then 0x60c37f14 else
    if c == 0x92 then 0x73938ce0 else if c == 0x93 then 0x81f80fe3 else
    if c == 0x94 then 0x55326b08 else if c == 0x95 then 0xa759e80b else
    if c == 0x96 then 0xb4091bff else if c == 0x97 then 0x466298fc else
    if c == 0x98 then 0x1871a4d8 else if c == 0x99 then 0xea1a27db else
    if c == 0x9a then 0xf94ad42f else if c == 0x9b then 0x0b21572c else
    if c == 0x9c then 0xdfeb33c7 else if c == 0x9d then 0x2d80b0c4 else
    if c == 0x9e then 0x3ed04330 else
    0xccbbc033
  }

  function RowA(c: bv32): bv32 {
    if c == 0xa0 then 0xa24bb5a6 else if c == 0xa1 then 0x502036a5 else
    if c == 0xa2 then 0x4370c551 else if c == 0xa3 then 0xb11b4652 else
    if c == 0xa4 then 0x65d122b9 else if c == 0xa5 then 0x97baa1ba else
    if c == 0xa6 then 0x84ea524e else if c == 0xa7 then 0x7681d14d else
    if c == 0xa8 then 0x2892ed69 else if c == 0xa9 then 0xdaf96e6a else
    if c == 0xaa then 0xc9a99d9e else if c == 0xab then 0x3bc21e9d else
    if c == 0xac then 0xef087a76 else if c == 0xad then 0x1d63f975 else
    if c == 0xae then 0x0e330a81 else
    0xfc588982
  }

  function RowB(c: bv32): bv32 {
    if c == 0xb0 then 0xb21572c9 else if c == 0xb1 then 0x407ef1ca else
    if c == 0xb2 then 0x532e023e else if c == 0xb3 then 0xa145813d else
    if c == 0xb4 then 0x758fe5d6 else if c == 0xb5 then 0x87e466d5 else
    if c == 0xb6 then 0x94b49521 else if c == 0xb7 then 0x66df1622 else
    if c == 0xb8 then 0x38cc2a06 else if c == 0xb9 then 0xcaa7a905 else
    if c == 0xba then 0xd9f75af1 else if c == 0xbb then 0x2b9cd9f2 else
    if c == 0xbc then 0xff56bd19 else if c == 0xbd then 0x0d3d3e1a else
    if c == 0xbe then 0x1e6dcdee else
    0xec064eed
  }

  function RowC(c: bv32): bv32 {
    if c == 0xc0 then 0xc38d26c4 else if c == 0xc1 then 0x31e6a5c7 else
    if c == 0xc2 then 0x22b65633 else if c == 0xc3 then 0xd0ddd530 else
    if c == 0xc4 then 0x0417b1db else if c == 0xc5 then 0xf67c32d8 else
    if c == 0xc6 then 0xe52cc12c else if c == 0xc7 then 0x1747422f else
    if c == 0xc8 then 0x49547e0b else if c == 0xc9 then 0xbb3ffd08 else
    if c == 0xca then 0xa86f0efc else if c == 0xcb then 0x5a048dff else
    if c == 0xcc then 0x8ecee914 else if c == 0xcd then 0x7ca56a17 else
    if c == 0xce then 0x6ff599e3 else
    0x9d9e1ae0
  }

  function RowD(c: bv32): bv32 {
    if c == 0xd0 then 0xd3d3e1ab else if c == 0xd1 then 0x21b862a8 else
    if c == 0xd2 then 0x32e8915c else if c == 0xd3 then 0xc083125f else
    if c == 0xd4 then 0x144976b4 else if c == 0xd5 then 0xe622f5b7 else
    if c == 0xd6 then 0xf5720643 else if c == 0xd7 then 0x07198540 else
    if c == 0xd8 then 0x590ab964 else if c == 0xd9 then 0xab613a67 else
    if c == 0xda then 0xb831c993 else if c == 0xdb then 0x4a5a4a90 else
    if c == 0xdc then 0x9e902e7b else if c == 0xdd then 0x6cfbad78 else
    if c == 0xde then 0x7fab5e8c else
    0x8dc0dd8f
  }

  function RowE(c: bv32): bv32 {
    if c == 0xe0 then 0xe330a81a else if c == 0xe1 then 0x115b2b19 else
    if c == 0xe2 then 0x020bd8ed else if c == 0xe3 then 0xf0605bee else
    if c == 0xe4 then 0x24aa3f05 else if c == 0xe5 then 0xd6c1bc06 else
    if c == 0xe6 then 0xc5914ff2 else if c == 0xe7 then 0x37faccf1 else
    if c == 0xe8 then 0x69e9f0d5 else if c == 0xe9 then 0x9b8273d6 else
    if c == 0xea then 0x88d28022 else if c == 0xeb then 0x7ab90321 else
    if c == 0xec then 0xae7367ca else if c == 0xed then 0x5c18e4c9 else
    if c == 0xee then 0x4f48173d else
    0xbd23943e
  }

  function RowF(c: bv32): bv32 {
    if c == 0xf0 then 0xf36e6f75 else if c == 0xf1 then 0x0105ec76 else
    if c == 0xf2 then 0x12551f82 else if c == 0xf3 then 0xe03e9c81 else
    if c == 0xf4 then 0x34f4f86a else if c == 0xf5 then 0xc69f7b69 else
    if c == 0xf6 then 0xd5cf889d else if c == 0xf7 then 0x27a40b9e else
    if c == 0xf8 then 0x79b737ba else if c == 0xf9 then 0x8bdcb4b9 else
    if c == 0xfa then 0x988c474d else if c == 0xfb then 0x6ae7c44e else
    if c == 0xfc then 0xbe2da0a5 else if c == 0xfd then 0x4c4623a6 else
    if c == 0xfe then 0x5f16d052 else
    0xad7d5351
  }

  function Table(c: bv32): bv32
    requires c < 0x100
  {
    if c < 0x10 then Row0(c)
    else if c < 0x20 then Row1(c)
    else if c < 0x30 then Row2(c)
    else if c < 0x40 then Row3(c)
    else if c < 0x50 then Row4(c)
    else if c < 0x60 then Row5(c)
    else if c < 0x70 then Row6(c)
    else if c < 0x80 then Row7(c)
    else if c < 0x90 then Row8(c)
    else if c < 0xa0 then Row9(c)
    else if c < 0xb0 then RowA(c)
    else if c < 0xc0 then RowB(c)
    else if c < 0xd0 then RowC(c)
    else if c < 0xe0 then RowD(c)
    else if c < 0xf0 then RowE(c)
    else RowF(c)
  }

  lemma Row0Checked(c: bv32)
    requires 0x00 <= c <= 0x0f
    ensures Row0(c) == ByteStep(c)
  {
  }

  lemma Row1Checked(c: bv32)
    requires 0x10 <= c <= 0x1f
    ensures Row1(c) == ByteStep(c)
  {
  }

  lemma Row2Checked(c: bv32)
    requires 0x20 <= c <= 0x2f
    ensures Row2(c) == ByteStep(c)
  {
  }

  lemma Row3Checked(c: bv32)
    requires 0x30 <= c <= 0x3f
    ensures Row3(c) == ByteStep(c)
  {
  }

  lemma Row4Checked(c: bv32)
    requires 0x40 <= c <= 0x4f
    ensures Row4(c) == ByteStep(c)
  {
  }

  lemma Row5Checked(c: bv32)
    requires 0x50 <= c <= 0x5f
    ensures Row5(c) == ByteStep(c)
  {
  }

  lemma Row6Checked(c: bv32)
    requires 0x60 <= c <= 0x6f
    ensures Row6(c) == ByteStep(c)
  {
  }

  lemma Row7Checked(c: bv32)
    requires 0x70 <= c <= 0x7f
    ensures Row7(c) == ByteStep(c)
  {
  }

  lemma Row8Checked(c: bv32)
    requires 0x80 <= c <= 0x8f
    ensures Row8(c) == ByteStep(c)
  {
  }

  lemma Row9Checked(c: bv32)
    requires 0x90 <= c <= 0x9f
    ensures Row9(c) == ByteStep(c)
  {
  }

  lemma RowAChecked(c: bv32)
    requires 0xa0 <= c <= 0xaf
    ensures RowA(c) == ByteStep(c)
  {
  }

  lemma RowBChecked(c: bv32)
    requires 0xb0 <= c <= 0xbf
    ensures RowB(c) == ByteStep(c)
  {
  }

  lemma RowCChecked(c: bv32)
    requires 0xc0 <= c <= 0xcf
    ensures RowC(c) == ByteStep(c)
  {
  }

  lemma RowDChecked(c: bv32)
    requires 0xd0 <= c <= 0xdf
    ensures RowD(c) == ByteStep(c)
  {
  }

  lemma RowEChecked(c: bv32)
    requires 0xe0 <= c <= 0xef
    ensures RowE(c) == ByteStep(c)
  {
  }

  lemma RowFChecked(c: bv32)
    requires 0xf0 <= c <= 0xff
    ensures RowF(c) == ByteStep(c)
  {
  }

  /** Every table entry is the register after dividing its index bit by bit. */
  lemma TableChecked(c: bv32)
    requires c < 0x100
    ensures Table(c) == ByteStep(c)
  {
    if c < 0x10 { Row0Checked(c); }
    else if c < 0x20 { Row1Checked(c); }
    else if c < 0x30 { Row2Checked(c); }
    else if c < 0x40 { Row3Checked(c); }
    else if c < 0x50 { Row4Checked(c); }
    else if c < 0x60 { Row5Checked(c); }
    else if c < 0x70 { Row6Checked(c); }
    else if c < 0x80 { Row7Checked(c); }
    else if c < 0x90 { Row8Checked(c); }
    else if c < 0xa0 { Row9Checked(c); }
    else if c < 0xb0 { RowAChecked(c); }
    else if c < 0xc0 { RowBChecked(c); }
    else if c < 0xd0 { RowCChecked(c); }
    else if c < 0xe0 { RowDChecked(c); }
    else if c < 0xf0 { RowEChecked(c); }
    else { RowFChecked(c); }
  }
}
