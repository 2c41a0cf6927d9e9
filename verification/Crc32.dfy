/** The CRC of RFC 1952 (src/crc32.c) and the generator of its table (src/makecrc.c). */
module Crc32 {
  import opened Polynomial

  function Eight(c: bv32): bv32 {
    Bit(Bit(Bit(Bit(Bit(Bit(Bit(Bit(c))))))))
  }

  /** The register after a run of bytes. */
  function Register(c: bv32, bytes: seq<bv8>): bv32
    decreases |bytes|
  {
    if bytes == [] then c else Register(Eight(Add(c, bytes[0] as bv32)), bytes[1..])
  }

  function Crc(crc: bv32, bytes: seq<bv8>): bv32 {
    Not(Register(Not(crc), bytes))
  }

  // The table

  function Row0(i: bv8): bv32 {
    match i
    case 0 => 0x00000000 case 1 => 0x77073096 case 2 => 0xee0e612c case 3 => 0x990951ba
    case 4 => 0x076dc419 case 5 => 0x706af48f case 6 => 0xe963a535 case 7 => 0x9e6495a3
    case 8 => 0x0edb8832 case 9 => 0x79dcb8a4 case 10 => 0xe0d5e91e case 11 => 0x97d2d988
    case 12 => 0x09b64c2b case 13 => 0x7eb17cbd case 14 => 0xe7b82d07 case _ => 0x90bf1d91
  }

  function Row1(i: bv8): bv32 {
    match i
    case 16 => 0x1db71064 case 17 => 0x6ab020f2 case 18 => 0xf3b97148 case 19 => 0x84be41de
    case 20 => 0x1adad47d case 21 => 0x6ddde4eb case 22 => 0xf4d4b551 case 23 => 0x83d385c7
    case 24 => 0x136c9856 case 25 => 0x646ba8c0 case 26 => 0xfd62f97a case 27 => 0x8a65c9ec
    case 28 => 0x14015c4f case 29 => 0x63066cd9 case 30 => 0xfa0f3d63 case _ => 0x8d080df5
  }

  function Row2(i: bv8): bv32 {
    match i
    case 32 => 0x3b6e20c8 case 33 => 0x4c69105e case 34 => 0xd56041e4 case 35 => 0xa2677172
    case 36 => 0x3c03e4d1 case 37 => 0x4b04d447 case 38 => 0xd20d85fd case 39 => 0xa50ab56b
    case 40 => 0x35b5a8fa case 41 => 0x42b2986c case 42 => 0xdbbbc9d6 case 43 => 0xacbcf940
    case 44 => 0x32d86ce3 case 45 => 0x45df5c75 case 46 => 0xdcd60dcf case _ => 0xabd13d59
  }

  function Row3(i: bv8): bv32 {
    match i
    case 48 => 0x26d930ac case 49 => 0x51de003a case 50 => 0xc8d75180 case 51 => 0xbfd06116
    case 52 => 0x21b4f4b5 case 53 => 0x56b3c423 case 54 => 0xcfba9599 case 55 => 0xb8bda50f
    case 56 => 0x2802b89e case 57 => 0x5f058808 case 58 => 0xc60cd9b2 case 59 => 0xb10be924
    case 60 => 0x2f6f7c87 case 61 => 0x58684c11 case 62 => 0xc1611dab case _ => 0xb6662d3d
  }

  function Row4(i: bv8): bv32 {
    match i
    case 64 => 0x76dc4190 case 65 => 0x01db7106 case 66 => 0x98d220bc case 67 => 0xefd5102a
    case 68 => 0x71b18589 case 69 => 0x06b6b51f case 70 => 0x9fbfe4a5 case 71 => 0xe8b8d433
    case 72 => 0x7807c9a2 case 73 => 0x0f00f934 case 74 => 0x9609a88e case 75 => 0xe10e9818
    case 76 => 0x7f6a0dbb case 77 => 0x086d3d2d case 78 => 0x91646c97 case _ => 0xe6635c01
  }

  function Row5(i: bv8): bv32 {
    match i
    case 80 => 0x6b6b51f4 case 81 => 0x1c6c6162 case 82 => 0x856530d8 case 83 => 0xf262004e
    case 84 => 0x6c0695ed case 85 => 0x1b01a57b case 86 => 0x8208f4c1 case 87 => 0xf50fc457
    case 88 => 0x65b0d9c6 case 89 => 0x12b7e950 case 90 => 0x8bbeb8ea case 91 => 0xfcb9887c
    case 92 => 0x62dd1ddf case 93 => 0x15da2d49 case 94 => 0x8cd37cf3 case _ => 0xfbd44c65
  }

  function Row6(i: bv8): bv32 {
    match i
    case 96 => 0x4db26158 case 97 => 0x3ab551ce case 98 => 0xa3bc0074 case 99 => 0xd4bb30e2
    case 100 => 0x4adfa541 case 101 => 0x3dd895d7 case 102 => 0xa4d1c46d case 103 => 0xd3d6f4fb
    case 104 => 0x4369e96a case 105 => 0x346ed9fc case 106 => 0xad678846 case 107 => 0xda60b8d0
    case 108 => 0x44042d73 case 109 => 0x33031de5 case 110 => 0xaa0a4c5f case _ => 0xdd0d7cc9
  }

  function Row7(i: bv8): bv32 {
    match i
    case 112 => 0x5005713c case 113 => 0x270241aa case 114 => 0xbe0b1010 case 115 => 0xc90c2086
    case 116 => 0x5768b525 case 117 => 0x206f85b3 case 118 => 0xb966d409 case 119 => 0xce61e49f
    case 120 => 0x5edef90e case 121 => 0x29d9c998 case 122 => 0xb0d09822 case 123 => 0xc7d7a8b4
    case 124 => 0x59b33d17 case 125 => 0x2eb40d81 case 126 => 0xb7bd5c3b case _ => 0xc0ba6cad
  }

  function Row8(i: bv8): bv32 {
    match i
    case 128 => 0xedb88320 case 129 => 0x9abfb3b6 case 130 => 0x03b6e20c case 131 => 0x74b1d29a
    case 132 => 0xead54739 case 133 => 0x9dd277af case 134 => 0x04db2615 case 135 => 0x73dc1683
    case 136 => 0xe3630b12 case 137 => 0x94643b84 case 138 => 0x0d6d6a3e case 139 => 0x7a6a5aa8
    case 140 => 0xe40ecf0b case 141 => 0x9309ff9d case 142 => 0x0a00ae27 case _ => 0x7d079eb1
  }

  function Row9(i: bv8): bv32 {
    match i
    case 144 => 0xf00f9344 case 145 => 0x8708a3d2 case 146 => 0x1e01f268 case 147 => 0x6906c2fe
    case 148 => 0xf762575d case 149 => 0x806567cb case 150 => 0x196c3671 case 151 => 0x6e6b06e7
    case 152 => 0xfed41b76 case 153 => 0x89d32be0 case 154 => 0x10da7a5a case 155 => 0x67dd4acc
    case 156 => 0xf9b9df6f case 157 => 0x8ebeeff9 case 158 => 0x17b7be43 case _ => 0x60b08ed5
  }

  function RowA(i: bv8): bv32 {
    match i
    case 160 => 0xd6d6a3e8 case 161 => 0xa1d1937e case 162 => 0x38d8c2c4 case 163 => 0x4fdff252
    case 164 => 0xd1bb67f1 case 165 => 0xa6bc5767 case 166 => 0x3fb506dd case 167 => 0x48b2364b
    case 168 => 0xd80d2bda case 169 => 0xaf0a1b4c case 170 => 0x36034af6 case 171 => 0x41047a60
    case 172 => 0xdf60efc3 case 173 => 0xa867df55 case 174 => 0x316e8eef case _ => 0x4669be79
  }

  function RowB(i: bv8): bv32 {
    match i
    case 176 => 0xcb61b38c case 177 => 0xbc66831a case 178 => 0x256fd2a0 case 179 => 0x5268e236
    case 180 => 0xcc0c7795 case 181 => 0xbb0b4703 case 182 => 0x220216b9 case 183 => 0x5505262f
    case 184 => 0xc5ba3bbe case 185 => 0xb2bd0b28 case 186 => 0x2bb45a92 case 187 => 0x5cb36a04
    case 188 => 0xc2d7ffa7 case 189 => 0xb5d0cf31 case 190 => 0x2cd99e8b case _ => 0x5bdeae1d
  }

  function RowC(i: bv8): bv32 {
    match i
    case 192 => 0x9b64c2b0 case 193 => 0xec63f226 case 194 => 0x756aa39c case 195 => 0x026d930a
    case 196 => 0x9c0906a9 case 197 => 0xeb0e363f case 198 => 0x72076785 case 199 => 0x05005713
    case 200 => 0x95bf4a82 case 201 => 0xe2b87a14 case 202 => 0x7bb12bae case 203 => 0x0cb61b38
    case 204 => 0x92d28e9b case 205 => 0xe5d5be0d case 206 => 0x7cdcefb7 case _ => 0x0bdbdf21
  }

  function RowD(i: bv8): bv32 {
    match i
    case 208 => 0x86d3d2d4 case 209 => 0xf1d4e242 case 210 => 0x68ddb3f8 case 211 => 0x1fda836e
    case 212 => 0x81be16cd case 213 => 0xf6b9265b case 214 => 0x6fb077e1 case 215 => 0x18b74777
    case 216 => 0x88085ae6 case 217 => 0xff0f6a70 case 218 => 0x66063bca case 219 => 0x11010b5c
    case 220 => 0x8f659eff case 221 => 0xf862ae69 case 222 => 0x616bffd3 case _ => 0x166ccf45
  }

  function RowE(i: bv8): bv32 {
    match i
    case 224 => 0xa00ae278 case 225 => 0xd70dd2ee case 226 => 0x4e048354 case 227 => 0x3903b3c2
    case 228 => 0xa7672661 case 229 => 0xd06016f7 case 230 => 0x4969474d case 231 => 0x3e6e77db
    case 232 => 0xaed16a4a case 233 => 0xd9d65adc case 234 => 0x40df0b66 case 235 => 0x37d83bf0
    case 236 => 0xa9bcae53 case 237 => 0xdebb9ec5 case 238 => 0x47b2cf7f case _ => 0x30b5ffe9
  }

  function RowF(i: bv8): bv32 {
    match i
    case 240 => 0xbdbdf21c case 241 => 0xcabac28a case 242 => 0x53b39330 case 243 => 0x24b4a3a6
    case 244 => 0xbad03605 case 245 => 0xcdd70693 case 246 => 0x54de5729 case 247 => 0x23d967bf
    case 248 => 0xb3667a2e case 249 => 0xc4614ab8 case 250 => 0x5d681b02 case 251 => 0x2a6f2b94
    case 252 => 0xb40bbe37 case 253 => 0xc30c8ea1 case 254 => 0x5a05df1b case _ => 0x2d02ef8d
  }

  /** crc32_table */
  function Table(i: bv8): bv32 {
    match i >> 4
    case 0 => Row0(i) case 1 => Row1(i) case 2 => Row2(i) case 3 => Row3(i)
    case 4 => Row4(i) case 5 => Row5(i) case 6 => Row6(i) case 7 => Row7(i)
    case 8 => Row8(i) case 9 => Row9(i) case 10 => RowA(i) case 11 => RowB(i)
    case 12 => RowC(i) case 13 => RowD(i) case 14 => RowE(i) case _ => RowF(i)
  }

  lemma Row0IsEight(i: bv8)
    requires i >> 4 == 0
    ensures Row0(i) == Eight(i as bv32)
  {
    if i < 8 { Row0Low(i); } else { Row0High(i); }
  }

  lemma Row0Low(i: bv8) requires i < 8 ensures Row0(i) == Eight(i as bv32) {}
  lemma Row0High(i: bv8) requires 8 <= i < 16 ensures Row0(i) == Eight(i as bv32) {}

  // Each other row is the first one, changed by its own first entry.

  lemma Row1FromFirst(i: bv8) requires i >> 4 == 1 ensures Row1(i) == Add(0x1db71064, Row0(i & 15)) {}
  lemma Row2FromFirst(i: bv8) requires i >> 4 == 2 ensures Row2(i) == Add(0x3b6e20c8, Row0(i & 15)) {}
  lemma Row3FromFirst(i: bv8) requires i >> 4 == 3 ensures Row3(i) == Add(0x26d930ac, Row0(i & 15)) {}
  lemma Row4FromFirst(i: bv8) requires i >> 4 == 4 ensures Row4(i) == Add(0x76dc4190, Row0(i & 15)) {}
  lemma Row5FromFirst(i: bv8) requires i >> 4 == 5 ensures Row5(i) == Add(0x6b6b51f4, Row0(i & 15)) {}
  lemma Row6FromFirst(i: bv8) requires i >> 4 == 6 ensures Row6(i) == Add(0x4db26158, Row0(i & 15)) {}
  lemma Row7FromFirst(i: bv8) requires i >> 4 == 7 ensures Row7(i) == Add(0x5005713c, Row0(i & 15)) {}
  lemma Row8FromFirst(i: bv8) requires i >> 4 == 8 ensures Row8(i) == Add(0xedb88320, Row0(i & 15)) {}
  lemma Row9FromFirst(i: bv8) requires i >> 4 == 9 ensures Row9(i) == Add(0xf00f9344, Row0(i & 15)) {}
  lemma RowAFromFirst(i: bv8) requires i >> 4 == 10 ensures RowA(i) == Add(0xd6d6a3e8, Row0(i & 15)) {}
  lemma RowBFromFirst(i: bv8) requires i >> 4 == 11 ensures RowB(i) == Add(0xcb61b38c, Row0(i & 15)) {}
  lemma RowCFromFirst(i: bv8) requires i >> 4 == 12 ensures RowC(i) == Add(0x9b64c2b0, Row0(i & 15)) {}
  lemma RowDFromFirst(i: bv8) requires i >> 4 == 13 ensures RowD(i) == Add(0x86d3d2d4, Row0(i & 15)) {}
  lemma RowEFromFirst(i: bv8) requires i >> 4 == 14 ensures RowE(i) == Add(0xa00ae278, Row0(i & 15)) {}
  lemma RowFFromFirst(i: bv8) requires i >> 4 == 15 ensures RowF(i) == Add(0xbdbdf21c, Row0(i & 15)) {}

  lemma First1() ensures Eight(0x10) == 0x1db71064 {}
  lemma First2() ensures Eight(0x20) == 0x3b6e20c8 {}
  lemma First3() ensures Eight(0x30) == 0x26d930ac {}
  lemma First4() ensures Eight(0x40) == 0x76dc4190 {}
  lemma First5() ensures Eight(0x50) == 0x6b6b51f4 {}
  lemma First6() ensures Eight(0x60) == 0x4db26158 {}
  lemma First7() ensures Eight(0x70) == 0x5005713c {}
  lemma First8() ensures Eight(0x80) == 0xedb88320 {}
  lemma First9() ensures Eight(0x90) == 0xf00f9344 {}
  lemma FirstA() ensures Eight(0xa0) == 0xd6d6a3e8 {}
  lemma FirstB() ensures Eight(0xb0) == 0xcb61b38c {}
  lemma FirstC() ensures Eight(0xc0) == 0x9b64c2b0 {}
  lemma FirstD() ensures Eight(0xd0) == 0x86d3d2d4 {}
  lemma FirstE() ensures Eight(0xe0) == 0xa00ae278 {}
  lemma FirstF() ensures Eight(0xf0) == 0xbdbdf21c {}

  lemma SplitNibbles(i: bv8)
    ensures i as bv32 == Add((i & 0xf0) as bv32, (i & 15) as bv32) && (i & 15) >> 4 == 0
  {
  }

  /** An entry is the first of its row, changed by the entry of the first row with the same low nibble. */
  lemma RowIsEight(i: bv8, row: bv32, first: bv32)
    requires row == Add(first, Row0(i & 15)) && Eight((i & 0xf0) as bv32) == first
    ensures row == Eight(i as bv32)
  {
    hide *;
    SplitNibbles(i);
    Row0IsEight(i & 15);
    EightLinear((i & 0xf0) as bv32, (i & 15) as bv32);
  }

  lemma Row1IsEight(i: bv8)
    requires i >> 4 == 1
    ensures Row1(i) == Eight(i as bv32)
  {
    hide *;
    First1();
    assert i & 0xf0 == 0x10;
    Row1FromFirst(i);
    RowIsEight(i, Row1(i), 0x1db71064);
  }

  lemma Row2IsEight(i: bv8)
    requires i >> 4 == 2
    ensures Row2(i) == Eight(i as bv32)
  {
    hide *;
    First2();
    assert i & 0xf0 == 0x20;
    Row2FromFirst(i);
    RowIsEight(i, Row2(i), 0x3b6e20c8);
  }

  lemma Row3IsEight(i: bv8)
    requires i >> 4 == 3
    ensures Row3(i) == Eight(i as bv32)
  {
    hide *;
    First3();
    assert i & 0xf0 == 0x30;
    Row3FromFirst(i);
    RowIsEight(i, Row3(i), 0x26d930ac);
  }

  lemma Row4IsEight(i: bv8)
    requires i >> 4 == 4
    ensures Row4(i) == Eight(i as bv32)
  {
    hide *;
    First4();
    assert i & 0xf0 == 0x40;
    Row4FromFirst(i);
    RowIsEight(i, Row4(i), 0x76dc4190);
  }

  lemma Row5IsEight(i: bv8)
    requires i >> 4 == 5
    ensures Row5(i) == Eight(i as bv32)
  {
    hide *;
    First5();
    assert i & 0xf0 == 0x50;
    Row5FromFirst(i);
    RowIsEight(i, Row5(i), 0x6b6b51f4);
  }

  lemma Row6IsEight(i: bv8)
    requires i >> 4 == 6
    ensures Row6(i) == Eight(i as bv32)
  {
    hide *;
    First6();
    assert i & 0xf0 == 0x60;
    Row6FromFirst(i);
    RowIsEight(i, Row6(i), 0x4db26158);
  }

  lemma Row7IsEight(i: bv8)
    requires i >> 4 == 7
    ensures Row7(i) == Eight(i as bv32)
  {
    hide *;
    First7();
    assert i & 0xf0 == 0x70;
    Row7FromFirst(i);
    RowIsEight(i, Row7(i), 0x5005713c);
  }

  lemma Row8IsEight(i: bv8)
    requires i >> 4 == 8
    ensures Row8(i) == Eight(i as bv32)
  {
    hide *;
    First8();
    assert i & 0xf0 == 0x80;
    Row8FromFirst(i);
    RowIsEight(i, Row8(i), 0xedb88320);
  }

  lemma Row9IsEight(i: bv8)
    requires i >> 4 == 9
    ensures Row9(i) == Eight(i as bv32)
  {
    hide *;
    First9();
    assert i & 0xf0 == 0x90;
    Row9FromFirst(i);
    RowIsEight(i, Row9(i), 0xf00f9344);
  }

  lemma RowAIsEight(i: bv8)
    requires i >> 4 == 10
    ensures RowA(i) == Eight(i as bv32)
  {
    hide *;
    FirstA();
    assert i & 0xf0 == 0xa0;
    RowAFromFirst(i);
    RowIsEight(i, RowA(i), 0xd6d6a3e8);
  }

  lemma RowBIsEight(i: bv8)
    requires i >> 4 == 11
    ensures RowB(i) == Eight(i as bv32)
  {
    hide *;
    FirstB();
    assert i & 0xf0 == 0xb0;
    RowBFromFirst(i);
    RowIsEight(i, RowB(i), 0xcb61b38c);
  }

  lemma RowCIsEight(i: bv8)
    requires i >> 4 == 12
    ensures RowC(i) == Eight(i as bv32)
  {
    hide *;
    FirstC();
    assert i & 0xf0 == 0xc0;
    RowCFromFirst(i);
    RowIsEight(i, RowC(i), 0x9b64c2b0);
  }

  lemma RowDIsEight(i: bv8)
    requires i >> 4 == 13
    ensures RowD(i) == Eight(i as bv32)
  {
    hide *;
    FirstD();
    assert i & 0xf0 == 0xd0;
    RowDFromFirst(i);
    RowIsEight(i, RowD(i), 0x86d3d2d4);
  }

  lemma RowEIsEight(i: bv8)
    requires i >> 4 == 14
    ensures RowE(i) == Eight(i as bv32)
  {
    hide *;
    FirstE();
    assert i & 0xf0 == 0xe0;
    RowEFromFirst(i);
    RowIsEight(i, RowE(i), 0xa00ae278);
  }

  lemma RowFIsEight(i: bv8)
    requires i >> 4 == 15
    ensures RowF(i) == Eight(i as bv32)
  {
    hide *;
    FirstF();
    assert i & 0xf0 == 0xf0;
    RowFFromFirst(i);
    RowIsEight(i, RowF(i), 0xbdbdf21c);
  }

  /** Every entry of the table is what the generator computes for it. */
  lemma TableIsEight(i: bv8)
    ensures Table(i) == Eight(i as bv32)
  {
    hide *;
    match i >> 4 {
      case 0 => Row0IsEight(i); TableRow(i);
      case 1 => Row1IsEight(i); TableRow(i);
      case 2 => Row2IsEight(i); TableRow(i);
      case 3 => Row3IsEight(i); TableRow(i);
      case 4 => Row4IsEight(i); TableRow(i);
      case 5 => Row5IsEight(i); TableRow(i);
      case 6 => Row6IsEight(i); TableRow(i);
      case 7 => Row7IsEight(i); TableRow(i);
      case 8 => Row8IsEight(i); TableRow(i);
      case 9 => Row9IsEight(i); TableRow(i);
      case 10 => RowAIsEight(i); TableRow(i);
      case 11 => RowBIsEight(i); TableRow(i);
      case 12 => RowCIsEight(i); TableRow(i);
      case 13 => RowDIsEight(i); TableRow(i);
      case 14 => RowEIsEight(i); TableRow(i);
      case _ => RowFIsEight(i); TableRow(i);
    }
  }

  lemma TableRow(i: bv8)
    ensures i >> 4 == 0 ==> Table(i) == Row0(i)
    ensures i >> 4 == 1 ==> Table(i) == Row1(i)
    ensures i >> 4 == 2 ==> Table(i) == Row2(i)
    ensures i >> 4 == 3 ==> Table(i) == Row3(i)
    ensures i >> 4 == 4 ==> Table(i) == Row4(i)
    ensures i >> 4 == 5 ==> Table(i) == Row5(i)
    ensures i >> 4 == 6 ==> Table(i) == Row6(i)
    ensures i >> 4 == 7 ==> Table(i) == Row7(i)
    ensures i >> 4 == 8 ==> Table(i) == Row8(i)
    ensures i >> 4 == 9 ==> Table(i) == Row9(i)
    ensures i >> 4 == 10 ==> Table(i) == RowA(i)
    ensures i >> 4 == 11 ==> Table(i) == RowB(i)
    ensures i >> 4 == 12 ==> Table(i) == RowC(i)
    ensures i >> 4 == 13 ==> Table(i) == RowD(i)
    ensures i >> 4 == 14 ==> Table(i) == RowE(i)
    ensures i >> 4 == 15 ==> Table(i) == RowF(i)
  {
    hide Row0, Row1, Row2, Row3, Row4, Row5, Row6, Row7, Row8, Row9, RowA, RowB, RowC, RowD, RowE, RowF;
  }

  lemma EightLinear(a: bv32, b: bv32)
    ensures Eight(Add(a, b)) == Add(Eight(a), Eight(b))
  {
    hide Bit, Add;
    BitLinear(a, b);
    BitLinear(Bit(a), Bit(b));
    BitLinear(Bit(Bit(a)), Bit(Bit(b)));
    BitLinear(Bit(Bit(Bit(a))), Bit(Bit(Bit(b))));
    BitLinear(Bit(Bit(Bit(Bit(a)))), Bit(Bit(Bit(Bit(b)))));
    BitLinear(Bit(Bit(Bit(Bit(Bit(a))))), Bit(Bit(Bit(Bit(Bit(b))))));
    BitLinear(Bit(Bit(Bit(Bit(Bit(Bit(a)))))), Bit(Bit(Bit(Bit(Bit(Bit(b)))))));
    BitLinear(Bit(Bit(Bit(Bit(Bit(Bit(Bit(a))))))), Bit(Bit(Bit(Bit(Bit(Bit(Bit(b))))))));
  }

  lemma LowZero(c: bv32)
    requires Low(c) == 0
    ensures !Odd(c) && !Odd(Half(c)) && !Odd(Half(Half(c))) && !Odd(Half(Half(Half(c))))
    ensures !Odd(Half(Half(Half(Half(c))))) && !Odd(Half(Half(Half(Half(Half(c))))))
    ensures !Odd(Half(Half(Half(Half(Half(Half(c))))))) && !Odd(Half(Half(Half(Half(Half(Half(Half(c))))))))
  {
    assert Half(0xff) == 0x7f && Half(0x7f) == 0x3f && Half(0x3f) == 0x1f && Half(0x1f) == 0xf && Half(0xf) == 7
           && Half(7) == 3 && Half(3) == 1;
    hide Half, Odd;
    LowHalf(c, 0xff);
    LowHalf(Half(c), 0x7f);
    LowHalf(Half(Half(c)), 0x3f);
    LowHalf(Half(Half(Half(c))), 0x1f);
    LowHalf(Half(Half(Half(Half(c)))), 0xf);
    LowHalf(Half(Half(Half(Half(Half(c))))), 7);
    LowHalf(Half(Half(Half(Half(Half(Half(c)))))), 3);
    LowHalf(Half(Half(Half(Half(Half(Half(Half(c))))))), 1);
  }

  lemma EightHigh(c: bv32)
    requires Low(c) == 0
    ensures Eight(c) == Shr8(c)
  {
    hide Bit, Half, Low, Shr8;
    LowZero(c);
    HalfEight(c);
    BitEven(c);
    BitEven(Half(c));
    BitEven(Half(Half(c)));
    BitEven(Half(Half(Half(c))));
    BitEven(Half(Half(Half(Half(c)))));
    BitEven(Half(Half(Half(Half(Half(c))))));
    BitEven(Half(Half(Half(Half(Half(Half(c)))))));
    BitEven(Half(Half(Half(Half(Half(Half(Half(c))))))));
  }

  /** Eight turns act on the low byte and shift the rest. */
  lemma EightSplit(c: bv32)
    ensures Eight(c) == Add(Eight(Low(c)), Shr8(c))
  {
    hide *;
    SplitLow(c);
    EightLinear(Low(c), High(c));
    EightHigh(High(c));
  }

  /** The index (crc ^ *buf) & 0xff into the table. */
  function Index(c: bv32, b: bv8): bv8 {
    (Add(c, b as bv32) & 0xff) as bv8
  }

  /** One byte through the table is eight turns of the register. */
  lemma TableStep(c: bv32, b: bv8)
    ensures Add(Table(Index(c, b)), Shr8(c)) == Eight(Add(c, b as bv32))
  {
    hide *;
    TableIsEight(Index(c, b));
    IndexLow(c, b);
    EightSplit(Add(c, b as bv32));
    AddByte(c, b);
  }

  lemma IndexLow(c: bv32, b: bv8)
    ensures Index(c, b) as bv32 == Low(Add(c, b as bv32))
  {
    hide Add, Low;
    LowByte(Add(c, b as bv32));
  }

  /** crc32 */
  method Crc32(crc: bv32, buf: array<bv8>, len: nat) returns (r: bv32)
    requires len <= buf.Length
    ensures r == Crc(crc, buf[..len])
  {
    hide *;
    var c := Not(crc);
    var p := 0;
    assert buf[0..len] == buf[..len];
    while p < len
      invariant p <= len && Register(c, buf[p..len]) == Register(Not(crc), buf[..len])
    {
      RegisterStep(c, buf[p..len]);
      assert buf[p..len][1..] == buf[p + 1..len];
      TableStep(c, buf[p]);
      c := Add(Table(Index(c, buf[p])), Shr8(c));
      p := p + 1;
    }
    assert buf[len..len] == [];
    RegisterDone(c, crc, buf[..len]);
    r := Not(c);
  }

  lemma RegisterStep(c: bv32, bytes: seq<bv8>)
    requires bytes != []
    ensures Register(c, bytes) == Register(Eight(Add(c, bytes[0] as bv32)), bytes[1..])
  {
  }

  lemma RegisterDone(c: bv32, crc: bv32, bytes: seq<bv8>)
    requires Register(c, []) == Register(Not(crc), bytes)
    ensures Not(c) == Crc(crc, bytes)
  {
  }

  /** The CRC of a text is the CRC of its second part continued from the CRC of its first. */
  lemma Concatenation(crc: bv32, a: seq<bv8>, b: seq<bv8>)
    ensures Crc(crc, a + b) == Crc(Crc(crc, a), b)
  {
    RegisterConcat(Not(crc), a, b);
    NotTwice(Register(Not(crc), a));
    hide Not, Register;
  }

  lemma {:induction false} RegisterConcat(c: bv32, a: seq<bv8>, b: seq<bv8>)
    ensures Register(c, a + b) == Register(Register(c, a), b)
    decreases |a|
  {
    hide Eight, Add;
    if a == [] {
      assert a + b == b;
    } else {
      RegisterConcat(Eight(Add(c, a[0] as bv32)), a[1..], b);
      assert (a + b)[1..] == a[1..] + b;
    }
  }
}
