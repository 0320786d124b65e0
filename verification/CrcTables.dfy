/** The lookup tables of libs/crc. Every entry is eight steps of the division of the
    byte it is the entry of. */
module CrcTables {
  import opened CrcSpec

  function Crc16Row0(i: bv8): (t: bv32)
    requires 0x00 <= i <= 0x0F
    ensures Align16(t) == Step8(POLY16, Top(i))
  {
    if i == 0x00 then 0x0000 else if i == 0x01 then 0x1021 else if i == 0x02 then 0x2042 else
    if i == 0x03 then 0x3063 else if i == 0x04 then 0x4084 else if i == 0x05 then 0x50A5 else
    if i == 0x06 then 0x60C6 else if i == 0x07 then 0x70E7 else if i == 0x08 then 0x8108 else
    if i == 0x09 then 0x9129 else if i == 0x0A then 0xA14A else if i == 0x0B then 0xB16B else
    if i == 0x0C then 0xC18C else if i == 0x0D then 0xD1AD else if i == 0x0E then 0xE1CE else 0xF1EF
  }

  function Crc16Row1(i: bv8): (t: bv32)
    requires 0x10 <= i <= 0x1F
    ensures Align16(t) == Step8(POLY16, Top(i))
  {
    if i == 0x10 then 0x1231 else if i == 0x11 then 0x0210 else if i == 0x12 then 0x3273 else
    if i == 0x13 then 0x2252 else if i == 0x14 then 0x52B5 else if i == 0x15 then 0x4294 else
    if i == 0x16 then 0x72F7 else if i == 0x17 then 0x62D6 else if i == 0x18 then 0x9339 else
    if i == 0x19 then 0x8318 else if i == 0x1A then 0xB37B else if i == 0x1B then 0xA35A else
    if i == 0x1C then 0xD3BD else if i == 0x1D then 0xC39C else if i == 0x1E then 0xF3FF else 0xE3DE
  }

  function Crc16Row2(i: bv8): (t: bv32)
    requires 0x20 <= i <= 0x2F
    ensures Align16(t) == Step8(POLY16, Top(i))
  {
    if i == 0x20 then 0x2462 else if i == 0x21 then 0x3443 else if i == 0x22 then 0x0420 else
    if i == 0x23 then 0x1401 else if i == 0x24 then 0x64E6 else if i == 0x25 then 0x74C7 else
    if i == 0x26 then 0x44A4 else if i == 0x27 then 0x5485 else if i == 0x28 then 0xA56A else
    if i == 0x29 then 0xB54B else if i == 0x2A then 0x8528 else if i == 0x2B then 0x9509 else
    if i == 0x2C then 0xE5EE else if i == 0x2D then 0xF5CF else if i == 0x2E then 0xC5AC else 0xD58D
  }

  function Crc16Row3(i: bv8): (t: bv32)
    requires 0x30 <= i <= 0x3F
    ensures Align16(t) == Step8(POLY16, Top(i))
  {
    if i == 0x30 then 0x3653 else if i == 0x31 then 0x2672 else if i == 0x32 then 0x1611 else
    if i == 0x33 then 0x0630 else if i == 0x34 then 0x76D7 else if i == 0x35 then 0x66F6 else
    if i == 0x36 then 0x5695 else if i == 0x37 then 0x46B4 else if i == 0x38 then 0xB75B else
    if i == 0x39 then 0xA77A else if i == 0x3A then 0x9719 else if i == 0x3B then 0x8738 else
    if i == 0x3C then 0xF7DF else if i == 0x3D then 0xE7FE else if i == 0x3E then 0xD79D else 0xC7BC
  }

  function Crc16Row4(i: bv8): (t: bv32)
    requires 0x40 <= i <= 0x4F
    ensures Align16(t) == Step8(POLY16, Top(i))
  {
    if i == 0x40 then 0x48C4 else if i == 0x41 then 0x58E5 else if i == 0x42 then 0x6886 else
    if i == 0x43 then 0x78A7 else if i == 0x44 then 0x0840 else if i == 0x45 then 0x1861 else
    if i == 0x46 then 0x2802 else if i == 0x47 then 0x3823 else if i == 0x48 then 0xC9CC else
    if i == 0x49 then 0xD9ED else if i == 0x4A then 0xE98E else if i == 0x4B then 0xF9AF else
    if i == 0x4C then 0x8948 else if i == 0x4D then 0x9969 else if i == 0x4E then 0xA90A else 0xB92B
  }

  function Crc16Row5(i: bv8): (t: bv32)
    requires 0x50 <= i <= 0x5F
    ensures Align16(t) == Step8(POLY16, Top(i))
  {
    if i == 0x50 then 0x5AF5 else if i == 0x51 then 0x4AD4 else if i == 0x52 then 0x7AB7 else
    if i == 0x53 then 0x6A96 else if i == 0x54 then 0x1A71 else if i == 0x55 then 0x0A50 else
    if i == 0x56 then 0x3A33 else if i == 0x57 then 0x2A12 else if i == 0x58 then 0xDBFD else
    if i == 0x59 then 0xCBDC else if i == 0x5A then 0xFBBF else if i == 0x5B then 0xEB9E else
    if i == 0x5C then 0x9B79 else if i == 0x5D then 0x8B58 else if i == 0x5E then 0xBB3B else 0xAB1A
  }

  function Crc16Row6(i: bv8): (t: bv32)
    requires 0x60 <= i <= 0x6F
    ensures Align16(t) == Step8(POLY16, Top(i))
  {
    if i == 0x60 then 0x6CA6 else if i == 0x61 then 0x7C87 else if i == 0x62 then 0x4CE4 else
    if i == 0x63 then 0x5CC5 else if i == 0x64 then 0x2C22 else if i == 0x65 then 0x3C03 else
    if i == 0x66 then 0x0C60 else if i == 0x67 then 0x1C41 else if i == 0x68 then 0xEDAE else
    if i == 0x69 then 0xFD8F else if i == 0x6A then 0xCDEC else if i == 0x6B then 0xDDCD else
    if i == 0x6C then 0xAD2A else if i == 0x6D then 0xBD0B else if i == 0x6E then 0x8D68 else 0x9D49
  }

  function Crc16Row7(i: bv8): (t: bv32)
    requires 0x70 <= i <= 0x7F
    ensures Align16(t) == Step8(POLY16, Top(i))
  {
    if i == 0x70 then 0x7E97 else if i == 0x71 then 0x6EB6 else if i == 0x72 then 0x5ED5 else
    if i == 0x73 then 0x4EF4 else if i == 0x74 then 0x3E13 else if i == 0x75 then 0x2E32 else
    if i == 0x76 then 0x1E51 else if i == 0x77 then 0x0E70 else if i == 0x78 then 0xFF9F else
    if i == 0x79 then 0xEFBE else if i == 0x7A then 0xDFDD else if i == 0x7B then 0xCFFC else
    if i == 0x7C then 0xBF1B else if i == 0x7D then 0xAF3A else if i == 0x7E then 0x9F59 else 0x8F78
  }

  function Crc16Row8(i: bv8): (t: bv32)
    requires 0x80 <= i <= 0x8F
    ensures Align16(t) == Step8(POLY16, Top(i))
  {
    if i == 0x80 then 0x9188 else if i == 0x81 then 0x81A9 else if i == 0x82 then 0xB1CA else
    if i == 0x83 then 0xA1EB else if i == 0x84 then 0xD10C else if i == 0x85 then 0xC12D else
    if i == 0x86 then 0xF14E else if i == 0x87 then 0xE16F else if i == 0x88 then 0x1080 else
    if i == 0x89 then 0x00A1 else if i == 0x8A then 0x30C2 else if i == 0x8B then 0x20E3 else
    if i == 0x8C then 0x5004 else if i == 0x8D then 0x4025 else if i == 0x8E then 0x7046 else 0x6067
  }

  function Crc16Row9(i: bv8): (t: bv32)
    requires 0x90 <= i <= 0x9F
    ensures Align16(t) == Step8(POLY16, Top(i))
  {
    if i == 0x90 then 0x83B9 else if i == 0x91 then 0x9398 else if i == 0x92 then 0xA3FB else
    if i == 0x93 then 0xB3DA else if i == 0x94 then 0xC33D else if i == 0x95 then 0xD31C else
    if i == 0x96 then 0xE37F else if i == 0x97 then 0xF35E else if i == 0x98 then 0x02B1 else
    if i == 0x99 then 0x1290 else if i == 0x9A then 0x22F3 else if i == 0x9B then 0x32D2 else
    if i == 0x9C then 0x4235 else if i == 0x9D then 0x5214 else if i == 0x9E then 0x6277 else 0x7256
  }

  function Crc16RowA(i: bv8): (t: bv32)
    requires 0xA0 <= i <= 0xAF
    ensures Align16(t) == Step8(POLY16, Top(i))
  {
    if i == 0xA0 then 0xB5EA else if i == 0xA1 then 0xA5CB else if i == 0xA2 then 0x95A8 else
    if i == 0xA3 then 0x8589 else if i == 0xA4 then 0xF56E else if i == 0xA5 then 0xE54F else
    if i == 0xA6 then 0xD52C else if i == 0xA7 then 0xC50D else if i == 0xA8 then 0x34E2 else
    if i == 0xA9 then 0x24C3 else if i == 0xAA then 0x14A0 else if i == 0xAB then 0x0481 else
    if i == 0xAC then 0x7466 else if i == 0xAD then 0x6447 else if i == 0xAE then 0x5424 else 0x4405
  }

  function Crc16RowB(i: bv8): (t: bv32)
    requires 0xB0 <= i <= 0xBF
    ensures Align16(t) == Step8(POLY16, Top(i))
  {
    if i == 0xB0 then 0xA7DB else if i == 0xB1 then 0xB7FA else if i == 0xB2 then 0x8799 else
    if i == 0xB3 then 0x97B8 else if i == 0xB4 then 0xE75F else if i == 0xB5 then 0xF77E else
    if i == 0xB6 then 0xC71D else if i == 0xB7 then 0xD73C else if i == 0xB8 then 0x26D3 else
    if i == 0xB9 then 0x36F2 else if i == 0xBA then 0x0691 else if i == 0xBB then 0x16B0 else
    if i == 0xBC then 0x6657 else if i == 0xBD then 0x7676 else if i == 0xBE then 0x4615 else 0x5634
  }

  function Crc16RowC(i: bv8): (t: bv32)
    requires 0xC0 <= i <= 0xCF
    ensures Align16(t) == Step8(POLY16, Top(i))
  {
    if i == 0xC0 then 0xD94C else if i == 0xC1 then 0xC96D else if i == 0xC2 then 0xF90E else
    if i == 0xC3 then 0xE92F else if i == 0xC4 then 0x99C8 else if i == 0xC5 then 0x89E9 else
    if i == 0xC6 then 0xB98A else if i == 0xC7 then 0xA9AB else if i == 0xC8 then 0x5844 else
    if i == 0xC9 then 0x4865 else if i == 0xCA then 0x7806 else if i == 0xCB then 0x6827 else
    if i == 0xCC then 0x18C0 else if i == 0xCD then 0x08E1 else if i == 0xCE then 0x3882 else 0x28A3
  }

  function Crc16RowD(i: bv8): (t: bv32)
    requires 0xD0 <= i <= 0xDF
    ensures Align16(t) == Step8(POLY16, Top(i))
  {
    if i == 0xD0 then 0xCB7D else if i == 0xD1 then 0xDB5C else if i == 0xD2 then 0xEB3F else
    if i == 0xD3 then 0xFB1E else if i == 0xD4 then 0x8BF9 else if i == 0xD5 then 0x9BD8 else
    if i == 0xD6 then 0xABBB else if i == 0xD7 then 0xBB9A else if i == 0xD8 then 0x4A75 else
    if i == 0xD9 then 0x5A54 else if i == 0xDA then 0x6A37 else if i == 0xDB then 0x7A16 else
    if i == 0xDC then 0x0AF1 else if i == 0xDD then 0x1AD0 else if i == 0xDE then 0x2AB3 else 0x3A92
  }

  function Crc16RowE(i: bv8): (t: bv32)
    requires 0xE0 <= i <= 0xEF
    ensures Align16(t) == Step8(POLY16, Top(i))
  {
    if i == 0xE0 then 0xFD2E else if i == 0xE1 then 0xED0F else if i == 0xE2 then 0xDD6C else
    if i == 0xE3 then 0xCD4D else if i == 0xE4 then 0xBDAA else if i == 0xE5 then 0xAD8B else
    if i == 0xE6 then 0x9DE8 else if i == 0xE7 then 0x8DC9 else if i == 0xE8 then 0x7C26 else
    if i == 0xE9 then 0x6C07 else if i == 0xEA then 0x5C64 else if i == 0xEB then 0x4C45 else
    if i == 0xEC then 0x3CA2 else if i == 0xED then 0x2C83 else if i == 0xEE then 0x1CE0 else 0x0CC1
  }

  function Crc16RowF(i: bv8): (t: bv32)
    requires 0xF0 <= i <= 0xFF
    ensures Align16(t) == Step8(POLY16, Top(i))
  {
    if i == 0xF0 then 0xEF1F else if i == 0xF1 then 0xFF3E else if i == 0xF2 then 0xCF5D else
    if i == 0xF3 then 0xDF7C else if i == 0xF4 then 0xAF9B else if i == 0xF5 then 0xBFBA else
    if i == 0xF6 then 0x8FD9 else if i == 0xF7 then 0x9FF8 else if i == 0xF8 then 0x6E17 else
    if i == 0xF9 then 0x7E36 else if i == 0xFA then 0x4E55 else if i == 0xFB then 0x5E74 else
    if i == 0xFC then 0x2E93 else if i == 0xFD then 0x3EB2 else if i == 0xFE then 0x0ED1 else 0x1EF0
  }

  /** crc16_lookup */
  function Crc16Lookup(i: bv8): bv32 {
    if i <= 0x0F then Crc16Row0(i)
    else if i <= 0x1F then Crc16Row1(i)
    else if i <= 0x2F then Crc16Row2(i)
    else if i <= 0x3F then Crc16Row3(i)
    else if i <= 0x4F then Crc16Row4(i)
    else if i <= 0x5F then Crc16Row5(i)
    else if i <= 0x6F then Crc16Row6(i)
    else if i <= 0x7F then Crc16Row7(i)
    else if i <= 0x8F then Crc16Row8(i)
    else if i <= 0x9F then Crc16Row9(i)
    else if i <= 0xAF then Crc16RowA(i)
    else if i <= 0xBF then Crc16RowB(i)
    else if i <= 0xCF then Crc16RowC(i)
    else if i <= 0xDF then Crc16RowD(i)
    else if i <= 0xEF then Crc16RowE(i)
    else Crc16RowF(i)
  }

  lemma Table16(i: bv8)
    ensures Align16(Crc16Lookup(i)) == Step8(POLY16, Top(i))
  {
    hide Step8, Top, Align16;
  }

  function Crc24Row0(i: bv8): (t: bv32)
    requires 0x00 <= i <= 0x0F
    ensures Align24(t) == Step8(POLY24, Top(i))
  {
    if i == 0x00 then 0x000000 else if i == 0x01 then 0x864CFB else if i == 0x02 then 0x8AD50D else
    if i == 0x03 then 0x0C99F6 else if i == 0x04 then 0x93E6E1 else if i == 0x05 then 0x15AA1A else
    if i == 0x06 then 0x1933EC else if i == 0x07 then 0x9F7F17 else if i == 0x08 then 0xA18139 else
    if i == 0x09 then 0x27CDC2 else if i == 0x0A then 0x2B5434 else if i == 0x0B then 0xAD18CF else
    if i == 0x0C then 0x3267D8 else if i == 0x0D then 0xB42B23 else if i == 0x0E then 0xB8B2D5 else 0x3EFE2E
  }

  function Crc24Row1(i: bv8): (t: bv32)
    requires 0x10 <= i <= 0x1F
    ensures Align24(t) == Step8(POLY24, Top(i))
  {
    if i == 0x10 then 0xC54E89 else if i == 0x11 then 0x430272 else if i == 0x12 then 0x4F9B84 else
    if i == 0x13 then 0xC9D77F else if i == 0x14 then 0x56A868 else if i == 0x15 then 0xD0E493 else
    if i == 0x16 then 0xDC7D65 else if i == 0x17 then 0x5A319E else if i == 0x18 then 0x64CFB0 else
    if i == 0x19 then 0xE2834B else if i == 0x1A then 0xEE1ABD else if i == 0x1B then 0x685646 else
    if i == 0x1C then 0xF72951 else if i == 0x1D then 0x7165AA else if i == 0x1E then 0x7DFC5C else 0xFBB0A7
  }

  function Crc24Row2(i: bv8): (t: bv32)
    requires 0x20 <= i <= 0x2F
    ensures Align24(t) == Step8(POLY24, Top(i))
  {
    if i == 0x20 then 0x0CD1E9 else if i == 0x21 then 0x8A9D12 else if i == 0x22 then 0x8604E4 else
    if i == 0x23 then 0x00481F else if i == 0x24 then 0x9F3708 else if i == 0x25 then 0x197BF3 else
    if i == 0x26 then 0x15E205 else if i == 0x27 then 0x93AEFE else if i == 0x28 then 0xAD50D0 else
    if i == 0x29 then 0x2B1C2B else if i == 0x2A then 0x2785DD else if i == 0x2B then 0xA1C926 else
    if i == 0x2C then 0x3EB631 else if i == 0x2D then 0xB8FACA else if i == 0x2E then 0xB4633C else 0x322FC7
  }

  function Crc24Row3(i: bv8): (t: bv32)
    requires 0x30 <= i <= 0x3F
    ensures Align24(t) == Step8(POLY24, Top(i))
  {
    if i == 0x30 then 0xC99F60 else if i == 0x31 then 0x4FD39B else if i == 0x32 then 0x434A6D else
    if i == 0x33 then 0xC50696 else if i == 0x34 then 0x5A7981 else if i == 0x35 then 0xDC357A else
    if i == 0x36 then 0xD0AC8C else if i == 0x37 then 0x56E077 else if i == 0x38 then 0x681E59 else
    if i == 0x39 then 0xEE52A2 else if i == 0x3A then 0xE2CB54 else if i == 0x3B then 0x6487AF else
    if i == 0x3C then 0xFBF8B8 else if i == 0x3D then 0x7DB443 else if i == 0x3E then 0x712DB5 else 0xF7614E
  }

  function Crc24Row4(i: bv8): (t: bv32)
    requires 0x40 <= i <= 0x4F
    ensures Align24(t) == Step8(POLY24, Top(i))
  {
    if i == 0x40 then 0x19A3D2 else if i == 0x41 then 0x9FEF29 else if i == 0x42 then 0x9376DF else
    if i == 0x43 then 0x153A24 else if i == 0x44 then 0x8A4533 else if i == 0x45 then 0x0C09C8 else
    if i == 0x46 then 0x00903E else if i == 0x47 then 0x86DCC5 else if i == 0x48 then 0xB822EB else
    if i == 0x49 then 0x3E6E10 else if i == 0x4A then 0x32F7E6 else if i == 0x4B then 0xB4BB1D else
    if i == 0x4C then 0x2BC40A else if i == 0x4D then 0xAD88F1 else if i == 0x4E then 0xA11107 else 0x275DFC
  }

  function Crc24Row5(i: bv8): (t: bv32)
    requires 0x50 <= i <= 0x5F
    ensures Align24(t) == Step8(POLY24, Top(i))
  {
    if i == 0x50 then 0xDCED5B else if i == 0x51 then 0x5AA1A0 else if i == 0x52 then 0x563856 else
    if i == 0x53 then 0xD074AD else if i == 0x54 then 0x4F0BBA else if i == 0x55 then 0xC94741 else
    if i == 0x56 then 0xC5DEB7 else if i == 0x57 then 0x43924C else if i == 0x58 then 0x7D6C62 else
    if i == 0x59 then 0xFB2099 else if i == 0x5A then 0xF7B96F else if i == 0x5B then 0x71F594 else
    if i == 0x5C then 0xEE8A83 else if i == 0x5D then 0x68C678 else if i == 0x5E then 0x645F8E else 0xE21375
  }

  function Crc24Row6(i: bv8): (t: bv32)
    requires 0x60 <= i <= 0x6F
    ensures Align24(t) == Step8(POLY24, Top(i))
  {
    if i == 0x60 then 0x15723B else if i == 0x61 then 0x933EC0 else if i == 0x62 then 0x9FA736 else
    if i == 0x63 then 0x19EBCD else if i == 0x64 then 0x8694DA else if i == 0x65 then 0x00D821 else
    if i == 0x66 then 0x0C41D7 else if i == 0x67 then 0x8A0D2C else if i == 0x68 then 0xB4F302 else
    if i == 0x69 then 0x32BFF9 else if i == 0x6A then 0x3E260F else if i == 0x6B then 0xB86AF4 else
    if i == 0x6C then 0x2715E3 else if i == 0x6D then 0xA15918 else if i == 0x6E then 0xADC0EE else 0x2B8C15
  }

  function Crc24Row7(i: bv8): (t: bv32)
    requires 0x70 <= i <= 0x7F
    ensures Align24(t) == Step8(POLY24, Top(i))
  {
    if i == 0x70 then 0xD03CB2 else if i == 0x71 then 0x567049 else if i == 0x72 then 0x5AE9BF else
    if i == 0x73 then 0xDCA544 else if i == 0x74 then 0x43DA53 else if i == 0x75 then 0xC596A8 else
    if i == 0x76 then 0xC90F5E else if i == 0x77 then 0x4F43A5 else if i == 0x78 then 0x71BD8B else
    if i == 0x79 then 0xF7F170 else if i == 0x7A then 0xFB6886 else if i == 0x7B then 0x7D247D else
    if i == 0x7C then 0xE25B6A else if i == 0x7D then 0x641791 else if i == 0x7E then 0x688E67 else 0xEEC29C
  }

  function Crc24Row8(i: bv8): (t: bv32)
    requires 0x80 <= i <= 0x8F
    ensures Align24(t) == Step8(POLY24, Top(i))
  {
    if i == 0x80 then 0x3347A4 else if i == 0x81 then 0xB50B5F else if i == 0x82 then 0xB992A9 else
    if i == 0x83 then 0x3FDE52 else if i == 0x84 then 0xA0A145 else if i == 0x85 then 0x26EDBE else
    if i == 0x86 then 0x2A7448 else if i == 0x87 then 0xAC38B3 else if i == 0x88 then 0x92C69D else
    if i == 0x89 then 0x148A66 else if i == 0x8A then 0x181390 else if i == 0x8B then 0x9E5F6B else
    if i == 0x8C then 0x01207C else if i == 0x8D then 0x876C87 else if i == 0x8E then 0x8BF571 else 0x0DB98A
  }

  function Crc24Row9(i: bv8): (t: bv32)
    requires 0x90 <= i <= 0x9F
    ensures Align24(t) == Step8(POLY24, Top(i))
  {
    if i == 0x90 then 0xF6092D else if i == 0x91 then 0x7045D6 else if i == 0x92 then 0x7CDC20 else
    if i == 0x93 then 0xFA90DB else if i == 0x94 then 0x65EFCC else if i == 0x95 then 0xE3A337 else
    if i == 0x96 then 0xEF3AC1 else if i == 0x97 then 0x69763A else if i == 0x98 then 0x578814 else
    if i == 0x99 then 0xD1C4EF else if i == 0x9A then 0xDD5D19 else if i == 0x9B then 0x5B11E2 else
    if i == 0x9C then 0xC46EF5 else if i == 0x9D then 0x42220E else if i == 0x9E then 0x4EBBF8 else 0xC8F703
  }

  function Crc24RowA(i: bv8): (t: bv32)
    requires 0xA0 <= i <= 0xAF
    ensures Align24(t) == Step8(POLY24, Top(i))
  {
    if i == 0xA0 then 0x3F964D else if i == 0xA1 then 0xB9DAB6 else if i == 0xA2 then 0xB54340 else
    if i == 0xA3 then 0x330FBB else if i == 0xA4 then 0xAC70AC else if i == 0xA5 then 0x2A3C57 else
    if i == 0xA6 then 0x26A5A1 else if i == 0xA7 then 0xA0E95A else if i == 0xA8 then 0x9E1774 else
    if i == 0xA9 then 0x185B8F else if i == 0xAA then 0x14C279 else if i == 0xAB then 0x928E82 else
    if i == 0xAC then 0x0DF195 else if i == 0xAD then 0x8BBD6E else if i == 0xAE then 0x872498 else 0x016863
  }

  function Crc24RowB(i: bv8): (t: bv32)
    requires 0xB0 <= i <= 0xBF
    ensures Align24(t) == Step8(POLY24, Top(i))
  {
    if i == 0xB0 then 0xFAD8C4 else if i == 0xB1 then 0x7C943F else if i == 0xB2 then 0x700DC9 else
    if i == 0xB3 then 0xF64132 else if i == 0xB4 then 0x693E25 else if i == 0xB5 then 0xEF72DE else
    if i == 0xB6 then 0xE3EB28 else if i == 0xB7 then 0x65A7D3 else if i == 0xB8 then 0x5B59FD else
    if i == 0xB9 then 0xDD1506 else if i == 0xBA then 0xD18CF0 else if i == 0xBB then 0x57C00B else
    if i == 0xBC then 0xC8BF1C else if i == 0xBD then 0x4EF3E7 else if i == 0xBE then 0x426A11 else 0xC426EA
  }

  function Crc24RowC(i: bv8): (t: bv32)
    requires 0xC0 <= i <= 0xCF
    ensures Align24(t) == Step8(POLY24, Top(i))
  {
    if i == 0xC0 then 0x2AE476 else if i == 0xC1 then 0xACA88D else if i == 0xC2 then 0xA0317B else
    if i == 0xC3 then 0x267D80 else if i == 0xC4 then 0xB90297 else if i == 0xC5 then 0x3F4E6C else
    if i == 0xC6 then 0x33D79A else if i == 0xC7 then 0xB59B61 else if i == 0xC8 then 0x8B654F else
    if i == 0xC9 then 0x0D29B4 else if i == 0xCA then 0x01B042 else if i == 0xCB then 0x87FCB9 else
    if i == 0xCC then 0x1883AE else if i == 0xCD then 0x9ECF55 else if i == 0xCE then 0x9256A3 else 0x141A58
  }

  function Crc24RowD(i: bv8): (t: bv32)
    requires 0xD0 <= i <= 0xDF
    ensures Align24(t) == Step8(POLY24, Top(i))
  {
    if i == 0xD0 then 0xEFAAFF else if i == 0xD1 then 0x69E604 else if i == 0xD2 then 0x657FF2 else
    if i == 0xD3 then 0xE33309 else if i == 0xD4 then 0x7C4C1E else if i == 0xD5 then 0xFA00E5 else
    if i == 0xD6 then 0xF69913 else if i == 0xD7 then 0x70D5E8 else if i == 0xD8 then 0x4E2BC6 else
    if i == 0xD9 then 0xC8673D else if i == 0xDA then 0xC4FECB else if i == 0xDB then 0x42B230 else
    if i == 0xDC then 0xDDCD27 else if i == 0xDD then 0x5B81DC else if i == 0xDE then 0x57182A else 0xD154D1
  }

  function Crc24RowE(i: bv8): (t: bv32)
    requires 0xE0 <= i <= 0xEF
    ensures Align24(t) == Step8(POLY24, Top(i))
  {
    if i == 0xE0 then 0x26359F else if i == 0xE1 then 0xA07964 else if i == 0xE2 then 0xACE092 else
    if i == 0xE3 then 0x2AAC69 else if i == 0xE4 then 0xB5D37E else if i == 0xE5 then 0x339F85 else
    if i == 0xE6 then 0x3F0673 else if i == 0xE7 then 0xB94A88 else if i == 0xE8 then 0x87B4A6 else
    if i == 0xE9 then 0x01F85D else if i == 0xEA then 0x0D61AB else if i == 0xEB then 0x8B2D50 else
    if i == 0xEC then 0x145247 else if i == 0xED then 0x921EBC else if i == 0xEE then 0x9E874A else 0x18CBB1
  }

  function Crc24RowF(i: bv8): (t: bv32)
    requires 0xF0 <= i <= 0xFF
    ensures Align24(t) == Step8(POLY24, Top(i))
  {
    if i == 0xF0 then 0xE37B16 else if i == 0xF1 then 0x6537ED else if i == 0xF2 then 0x69AE1B else
    if i == 0xF3 then 0xEFE2E0 else if i == 0xF4 then 0x709DF7 else if i == 0xF5 then 0xF6D10C else
    if i == 0xF6 then 0xFA48FA else if i == 0xF7 then 0x7C0401 else if i == 0xF8 then 0x42FA2F else
    if i == 0xF9 then 0xC4B6D4 else if i == 0xFA then 0xC82F22 else if i == 0xFB then 0x4E63D9 else
    if i == 0xFC then 0xD11CCE else if i == 0xFD then 0x575035 else if i == 0xFE then 0x5BC9C3 else 0xDD8538
  }

  /** crc24_lookup */
  function Crc24Lookup(i: bv8): bv32 {
    if i <= 0x0F then Crc24Row0(i)
    else if i <= 0x1F then Crc24Row1(i)
    else if i <= 0x2F then Crc24Row2(i)
    else if i <= 0x3F then Crc24Row3(i)
    else if i <= 0x4F then Crc24Row4(i)
    else if i <= 0x5F then Crc24Row5(i)
    else if i <= 0x6F then Crc24Row6(i)
    else if i <= 0x7F then Crc24Row7(i)
    else if i <= 0x8F then Crc24Row8(i)
    else if i <= 0x9F then Crc24Row9(i)
    else if i <= 0xAF then Crc24RowA(i)
    else if i <= 0xBF then Crc24RowB(i)
    else if i <= 0xCF then Crc24RowC(i)
    else if i <= 0xDF then Crc24RowD(i)
    else if i <= 0xEF then Crc24RowE(i)
    else Crc24RowF(i)
  }

  lemma Table24(i: bv8)
    ensures Align24(Crc24Lookup(i)) == Step8(POLY24, Top(i))
  {
    hide Step8, Top, Align24;
  }

  function Crc32Row0(i: bv8): (t: bv32)
    requires 0x00 <= i <= 0x0F
    ensures Align32(t) == Step8(POLY32, Top(i))
  {
    if i == 0x00 then 0x00000000 else if i == 0x01 then 0x04C11DB7 else if i == 0x02 then 0x09823B6E else
    if i == 0x03 then 0x0D4326D9 else if i == 0x04 then 0x130476DC else if i == 0x05 then 0x17C56B6B else
    if i == 0x06 then 0x1A864DB2 else if i == 0x07 then 0x1E475005 else if i == 0x08 then 0x2608EDB8 else
    if i == 0x09 then 0x22C9F00F else if i == 0x0A then 0x2F8AD6D6 else if i == 0x0B then 0x2B4BCB61 else
    if i == 0x0C then 0x350C9B64 else if i == 0x0D then 0x31CD86D3 else if i == 0x0E then 0x3C8EA00A else 0x384FBDBD
  }

  function Crc32Row1(i: bv8): (t: bv32)
    requires 0x10 <= i <= 0x1F
    ensures Align32(t) == Step8(POLY32, Top(i))
  {
    if i == 0x10 then 0x4C11DB70 else if i == 0x11 then 0x48D0C6C7 else if i == 0x12 then 0x4593E01E else
    if i == 0x13 then 0x4152FDA9 else if i == 0x14 then 0x5F15ADAC else if i == 0x15 then 0x5BD4B01B else
    if i == 0x16 then 0x569796C2 else if i == 0x17 then 0x52568B75 else if i == 0x18 then 0x6A1936C8 else
    if i == 0x19 then 0x6ED82B7F else if i == 0x1A then 0x639B0DA6 else if i == 0x1B then 0x675A1011 else
    if i == 0x1C then 0x791D4014 else if i == 0x1D then 0x7DDC5DA3 else if i == 0x1E then 0x709F7B7A else 0x745E66CD
  }

  function Crc32Row2(i: bv8): (t: bv32)
    requires 0x20 <= i <= 0x2F
    ensures Align32(t) == Step8(POLY32, Top(i))
  {
    if i == 0x20 then 0x9823B6E0 else if i == 0x21 then 0x9CE2AB57 else if i == 0x22 then 0x91A18D8E else
    if i == 0x23 then 0x95609039 else if i == 0x24 then 0x8B27C03C else if i == 0x25 then 0x8FE6DD8B else
    if i == 0x26 then 0x82A5FB52 else if i == 0x27 then 0x8664E6E5 else if i == 0x28 then 0xBE2B5B58 else
    if i == 0x29 then 0xBAEA46EF else if i == 0x2A then 0xB7A96036 else if i == 0x2B then 0xB3687D81 else
    if i == 0x2C then 0xAD2F2D84 else if i == 0x2D then 0xA9EE3033 else if i == 0x2E then 0xA4AD16EA else 0xA06C0B5D
  }

  function Crc32Row3(i: bv8): (t: bv32)
    requires 0x30 <= i <= 0x3F
    ensures Align32(t) == Step8(POLY32, Top(i))
  {
    if i == 0x30 then 0xD4326D90 else if i == 0x31 then 0xD0F37027 else if i == 0x32 then 0xDDB056FE else
    if i == 0x33 then 0xD9714B49 else if i == 0x34 then 0xC7361B4C else if i == 0x35 then 0xC3F706FB else
    if i == 0x36 then 0xCEB42022 else if i == 0x37 then 0xCA753D95 else if i == 0x38 then 0xF23A8028 else
    if i == 0x39 then 0xF6FB9D9F else if i == 0x3A then 0xFBB8BB46 else if i == 0x3B then 0xFF79A6F1 else
    if i == 0x3C then 0xE13EF6F4 else if i == 0x3D then 0xE5FFEB43 else if i == 0x3E then 0xE8BCCD9A else 0xEC7DD02D
  }

  function Crc32Row4(i: bv8): (t: bv32)
    requires 0x40 <= i <= 0x4F
    ensures Align32(t) == Step8(POLY32, Top(i))
  {
    if i == 0x40 then 0x34867077 else if i == 0x41 then 0x30476DC0 else if i == 0x42 then 0x3D044B19 else
    if i == 0x43 then 0x39C556AE else if i == 0x44 then 0x278206AB else if i == 0x45 then 0x23431B1C else
    if i == 0x46 then 0x2E003DC5 else if i == 0x47 then 0x2AC12072 else if i == 0x48 then 0x128E9DCF else
    if i == 0x49 then 0x164F8078 else if i == 0x4A then 0x1B0CA6A1 else if i == 0x4B then 0x1FCDBB16 else
    if i == 0x4C then 0x018AEB13 else if i == 0x4D then 0x054BF6A4 else if i == 0x4E then 0x0808D07D else 0x0CC9CDCA
  }

  function Crc32Row5(i: bv8): (t: bv32)
    requires 0x50 <= i <= 0x5F
    ensures Align32(t) == Step8(POLY32, Top(i))
  {
    if i == 0x50 then 0x7897AB07 else if i == 0x51 then 0x7C56B6B0 else if i == 0x52 then 0x71159069 else
    if i == 0x53 then 0x75D48DDE else if i == 0x54 then 0x6B93DDDB else if i == 0x55 then 0x6F52C06C else
    if i == 0x56 then 0x6211E6B5 else if i == 0x57 then 0x66D0FB02 else if i == 0x58 then 0x5E9F46BF else
    if i == 0x59 then 0x5A5E5B08 else if i == 0x5A then 0x571D7DD1 else if i == 0x5B then 0x53DC6066 else
    if i == 0x5C then 0x4D9B3063 else if i == 0x5D then 0x495A2DD4 else if i == 0x5E then 0x44190B0D else 0x40D816BA
  }

  function Crc32Row6(i: bv8): (t: bv32)
    requires 0x60 <= i <= 0x6F
    ensures Align32(t) == Step8(POLY32, Top(i))
  {
    if i == 0x60 then 0xACA5C697 else if i == 0x61 then 0xA864DB20 else if i == 0x62 then 0xA527FDF9 else
    if i == 0x63 then 0xA1E6E04E else if i == 0x64 then 0xBFA1B04B else if i == 0x65 then 0xBB60ADFC else
    if i == 0x66 then 0xB6238B25 else if i == 0x67 then 0xB2E29692 else if i == 0x68 then 0x8AAD2B2F else
    if i == 0x69 then 0x8E6C3698 else if i == 0x6A then 0x832F1041 else if i == 0x6B then 0x87EE0DF6 else
    if i == 0x6C then 0x99A95DF3 else if i == 0x6D then 0x9D684044 else if i == 0x6E then 0x902B669D else 0x94EA7B2A
  }

  function Crc32Row7(i: bv8): (t: bv32)
    requires 0x70 <= i <= 0x7F
    ensures Align32(t) == Step8(POLY32, Top(i))
  {
    if i == 0x70 then 0xE0B41DE7 else if i == 0x71 then 0xE4750050 else if i == 0x72 then 0xE9362689 else
    if i == 0x73 then 0xEDF73B3E else if i == 0x74 then 0xF3B06B3B else if i == 0x75 then 0xF771768C else
    if i == 0x76 then 0xFA325055 else if i == 0x77 then 0xFEF34DE2 else if i == 0x78 then 0xC6BCF05F else
    if i == 0x79 then 0xC27DEDE8 else if i == 0x7A then 0xCF3ECB31 else if i == 0x7B then 0xCBFFD686 else
    if i == 0x7C then 0xD5B88683 else if i == 0x7D then 0xD1799B34 else if i == 0x7E then 0xDC3ABDED else 0xD8FBA05A
  }

  function Crc32Row8(i: bv8): (t: bv32)
    requires 0x80 <= i <= 0x8F
    ensures Align32(t) == Step8(POLY32, Top(i))
  {
    if i == 0x80 then 0x690CE0EE else if i == 0x81 then 0x6DCDFD59 else if i == 0x82 then 0x608EDB80 else
    if i == 0x83 then 0x644FC637 else if i == 0x84 then 0x7A089632 else if i == 0x85 then 0x7EC98B85 else
    if i == 0x86 then 0x738AAD5C else if i == 0x87 then 0x774BB0EB else if i == 0x88 then 0x4F040D56 else
    if i == 0x89 then 0x4BC510E1 else if i == 0x8A then 0x46863638 else if i == 0x8B then 0x42472B8F else
    if i == 0x8C then 0x5C007B8A else if i == 0x8D then 0x58C1663D else if i == 0x8E then 0x558240E4 else 0x51435D53
  }

  function Crc32Row9(i: bv8): (t: bv32)
    requires 0x90 <= i <= 0x9F
    ensures Align32(t) == Step8(POLY32, Top(i))
  {
    if i == 0x90 then 0x251D3B9E else if i == 0x91 then 0x21DC2629 else if i == 0x92 then 0x2C9F00F0 else
    if i == 0x93 then 0x285E1D47 else if i == 0x94 then 0x36194D42 else if i == 0x95 then 0x32D850F5 else
    if i == 0x96 then 0x3F9B762C else if i == 0x97 then 0x3B5A6B9B else if i == 0x98 then 0x0315D626 else
    if i == 0x99 then 0x07D4CB91 else if i == 0x9A then 0x0A97ED48 else if i == 0x9B then 0x0E56F0FF else
    if i == 0x9C then 0x1011A0FA else if i == 0x9D then 0x14D0BD4D else if i == 0x9E then 0x19939B94 else 0x1D528623
  }

  function Crc32RowA(i: bv8): (t: bv32)
    requires 0xA0 <= i <= 0xAF
    ensures Align32(t) == Step8(POLY32, Top(i))
  {
    if i == 0xA0 then 0xF12F560E else if i == 0xA1 then 0xF5EE4BB9 else if i == 0xA2 then 0xF8AD6D60 else
    if i == 0xA3 then 0xFC6C70D7 else if i == 0xA4 then 0xE22B20D2 else if i == 0xA5 then 0xE6EA3D65 else
    if i == 0xA6 then 0xEBA91BBC else if i == 0xA7 then 0xEF68060B else if i == 0xA8 then 0xD727BBB6 else
    if i == 0xA9 then 0xD3E6A601 else if i == 0xAA then 0xDEA580D8 else if i == 0xAB then 0xDA649D6F else
    if i == 0xAC then 0xC423CD6A else if i == 0xAD then 0xC0E2D0DD else if i == 0xAE then 0xCDA1F604 else 0xC960EBB3
  }

  function Crc32RowB(i: bv8): (t: bv32)
    requires 0xB0 <= i <= 0xBF
    ensures Align32(t) == Step8(POLY32, Top(i))
  {
    if i == 0xB0 then 0xBD3E8D7E else if i == 0xB1 then 0xB9FF90C9 else if i == 0xB2 then 0xB4BCB610 else
    if i == 0xB3 then 0xB07DABA7 else if i == 0xB4 then 0xAE3AFBA2 else if i == 0xB5 then 0xAAFBE615 else
    if i == 0xB6 then 0xA7B8C0CC else if i == 0xB7 then 0xA379DD7B else if i == 0xB8 then 0x9B3660C6 else
    if i == 0xB9 then 0x9FF77D71 else if i == 0xBA then 0x92B45BA8 else if i == 0xBB then 0x9675461F else
    if i == 0xBC then 0x8832161A else if i == 0xBD then 0x8CF30BAD else if i == 0xBE then 0x81B02D74 else 0x857130C3
  }

  function Crc32RowC(i: bv8): (t: bv32)
    requires 0xC0 <= i <= 0xCF
    ensures Align32(t) == Step8(POLY32, Top(i))
  {
    if i == 0xC0 then 0x5D8A9099 else if i == 0xC1 then 0x594B8D2E else if i == 0xC2 then 0x5408ABF7 else
    if i == 0xC3 then 0x50C9B640 else if i == 0xC4 then 0x4E8EE645 else if i == 0xC5 then 0x4A4FFBF2 else
    if i == 0xC6 then 0x470CDD2B else if i == 0xC7 then 0x43CDC09C else if i == 0xC8 then 0x7B827D21 else
    if i == 0xC9 then 0x7F436096 else if i == 0xCA then 0x7200464F else if i == 0xCB then 0x76C15BF8 else
    if i == 0xCC then 0x68860BFD else if i == 0xCD then 0x6C47164A else if i == 0xCE then 0x61043093 else 0x65C52D24
  }

  function Crc32RowD(i: bv8): (t: bv32)
    requires 0xD0 <= i <= 0xDF
    ensures Align32(t) == Step8(POLY32, Top(i))
  {
    if i == 0xD0 then 0x119B4BE9 else if i == 0xD1 then 0x155A565E else if i == 0xD2 then 0x18197087 else
    if i == 0xD3 then 0x1CD86D30 else if i == 0xD4 then 0x029F3D35 else if i == 0xD5 then 0x065E2082 else
    if i == 0xD6 then 0x0B1D065B else if i == 0xD7 then 0x0FDC1BEC else if i == 0xD8 then 0x3793A651 else
    if i == 0xD9 then 0x3352BBE6 else if i == 0xDA then 0x3E119D3F else if i == 0xDB then 0x3AD08088 else
    if i == 0xDC then 0x2497D08D else if i == 0xDD then 0x2056CD3A else if i == 0xDE then 0x2D15EBE3 else 0x29D4F654
  }

  function Crc32RowE(i: bv8): (t: bv32)
    requires 0xE0 <= i <= 0xEF
    ensures Align32(t) == Step8(POLY32, Top(i))
  {
    if i == 0xE0 then 0xC5A92679 else if i == 0xE1 then 0xC1683BCE else if i == 0xE2 then 0xCC2B1D17 else
    if i == 0xE3 then 0xC8EA00A0 else if i == 0xE4 then 0xD6AD50A5 else if i == 0xE5 then 0xD26C4D12 else
    if i == 0xE6 then 0xDF2F6BCB else if i == 0xE7 then 0xDBEE767C else if i == 0xE8 then 0xE3A1CBC1 else
    if i == 0xE9 then 0xE760D676 else if i == 0xEA then 0xEA23F0AF else if i == 0xEB then 0xEEE2ED18 else
    if i == 0xEC then 0xF0A5BD1D else if i == 0xED then 0xF464A0AA else if i == 0xEE then 0xF9278673 else 0xFDE69BC4
  }

  function Crc32RowF(i: bv8): (t: bv32)
    requires 0xF0 <= i <= 0xFF
    ensures Align32(t) == Step8(POLY32, Top(i))
  {
    if i == 0xF0 then 0x89B8FD09 else if i == 0xF1 then 0x8D79E0BE else if i == 0xF2 then 0x803AC667 else
    if i == 0xF3 then 0x84FBDBD0 else if i == 0xF4 then 0x9ABC8BD5 else if i == 0xF5 then 0x9E7D9662 else
    if i == 0xF6 then 0x933EB0BB else if i == 0xF7 then 0x97FFAD0C else if i == 0xF8 then 0xAFB010B1 else
    if i == 0xF9 then 0xAB710D06 else if i == 0xFA then 0xA6322BDF else if i == 0xFB then 0xA2F33668 else
    if i == 0xFC then 0xBCB4666D else if i == 0xFD then 0xB8757BDA else if i == 0xFE then 0xB5365D03 else 0xB1F740B4
  }

  /** crc32_lookup */
  function Crc32Lookup(i: bv8): bv32 {
    if i <= 0x0F then Crc32Row0(i)
    else if i <= 0x1F then Crc32Row1(i)
    else if i <= 0x2F then Crc32Row2(i)
    else if i <= 0x3F then Crc32Row3(i)
    else if i <= 0x4F then Crc32Row4(i)
    else if i <= 0x5F then Crc32Row5(i)
    else if i <= 0x6F then Crc32Row6(i)
    else if i <= 0x7F then Crc32Row7(i)
    else if i <= 0x8F then Crc32Row8(i)
    else if i <= 0x9F then Crc32Row9(i)
    else if i <= 0xAF then Crc32RowA(i)
    else if i <= 0xBF then Crc32RowB(i)
    else if i <= 0xCF then Crc32RowC(i)
    else if i <= 0xDF then Crc32RowD(i)
    else if i <= 0xEF then Crc32RowE(i)
    else Crc32RowF(i)
  }

  lemma Table32(i: bv8)
    ensures Align32(Crc32Lookup(i)) == Step8(POLY32, Top(i))
  {
    hide Step8, Top, Align32;
  }
}
