/**
  The compile-time CRC of strings and class names.

  A string is the byte array of its literal, the terminating zero included.  The 256 table
  entries are written as sixteen rows of sixteen, in the order of the original array.
*/
module Crc {
  const INIT: bv32 := 0xFFFF_FFFF
  const COLON: bv8 := 0x3A

  function Row0(j: bv8): bv32 {
    match j
    case 0 => 0x00000000 case 1 => 0x77073096 case 2 => 0xee0e612c case 3 => 0x990951ba
    case 4 => 0x076dc419 case 5 => 0x706af48f case 6 => 0xe963a535 case 7 => 0x9e6495a3
    case 8 => 0x0edb8832 case 9 => 0x79dcb8a4 case 10 => 0xe0d5e91e case 11 => 0x97d2d988
    case 12 => 0x09b64c2b case 13 => 0x7eb17cbd case 14 => 0xe7b82d07 case _ => 0x90bf1d91
  }

  function Row1(j: bv8): bv32 {
    match j
    case 0 => 0x1db71064 case 1 => 0x6ab020f2 case 2 => 0xf3b97148 case 3 => 0x84be41de
    case 4 => 0x1adad47d case 5 => 0x6ddde4eb case 6 => 0xf4d4b551 case 7 => 0x83d385c7
    case 8 => 0x136c9856 case 9 => 0x646ba8c0 case 10 => 0xfd62f97a case 11 => 0x8a65c9ec
    case 12 => 0x14015c4f case 13 => 0x63066cd9 case 14 => 0xfa0f3d63 case _ => 0x8d080df5
  }

  function Row2(j: bv8): bv32 {
    match j
    case 0 => 0x3b6e20c8 case 1 => 0x4c69105e case 2 => 0xd56041e4 case 3 => 0xa2677172
    case 4 => 0x3c03e4d1 case 5 => 0x4b04d447 case 6 => 0xd20d85fd case 7 => 0xa50ab56b
    case 8 => 0x35b5a8fa case 9 => 0x42b2986c case 10 => 0xdbbbc9d6 case 11 => 0xacbcf940
    case 12 => 0x32d86ce3 case 13 => 0x45df5c75 case 14 => 0xdcd60dcf case _ => 0xabd13d59
  }

  function Row3(j: bv8): bv32 {
    match j
    case 0 => 0x26d930ac case 1 => 0x51de003a case 2 => 0xc8d75180 case 3 => 0xbfd06116
    case 4 => 0x21b4f4b5 case 5 => 0x56b3c423 case 6 => 0xcfba9599 case 7 => 0xb8bda50f
    case 8 => 0x2802b89e case 9 => 0x5f058808 case 10 => 0xc60cd9b2 case 11 => 0xb10be924
    case 12 => 0x2f6f7c87 case 13 => 0x58684c11 case 14 => 0xc1611dab case _ => 0xb6662d3d
  }

  function Row4(j: bv8): bv32 {
    match j
    case 0 => 0x76dc4190 case 1 => 0x01db7106 case 2 => 0x98d220bc case 3 => 0xefd5102a
    case 4 => 0x71b18589 case 5 => 0x06b6b51f case 6 => 0x9fbfe4a5 case 7 => 0xe8b8d433
    case 8 => 0x7807c9a2 case 9 => 0x0f00f934 case 10 => 0x9609a88e case 11 => 0xe10e9818
    case 12 => 0x7f6a0dbb case 13 => 0x086d3d2d case 14 => 0x91646c97 case _ => 0xe6635c01
  }

  function Row5(j: bv8): bv32 {
    match j
    case 0 => 0x6b6b51f4 case 1 => 0x1c6c6162 case 2 => 0x856530d8 case 3 => 0xf262004e
    case 4 => 0x6c0695ed case 5 => 0x1b01a57b case 6 => 0x8208f4c1 case 7 => 0xf50fc457
    case 8 => 0x65b0d9c6 case 9 => 0x12b7e950 case 10 => 0x8bbeb8ea case 11 => 0xfcb9887c
    case 12 => 0x62dd1ddf case 13 => 0x15da2d49 case 14 => 0x8cd37cf3 case _ => 0xfbd44c65
  }

  function Row6(j: bv8): bv32 {
    match j
    case 0 => 0x4db26158 case 1 => 0x3ab551ce case 2 => 0xa3bc0074 case 3 => 0xd4bb30e2
    case 4 => 0x4adfa541 case 5 => 0x3dd895d7 case 6 => 0xa4d1c46d case 7 => 0xd3d6f4fb
    case 8 => 0x4369e96a case 9 => 0x346ed9fc case 10 => 0xad678846 case 11 => 0xda60b8d0
    case 12 => 0x44042d73 case 13 => 0x33031de5 case 14 => 0xaa0a4c5f case _ => 0xdd0d7cc9
  }

  function Row7(j: bv8): bv32 {
    match j
    case 0 => 0x5005713c case 1 => 0x270241aa case 2 => 0xbe0b1010 case 3 => 0xc90c2086
    case 4 => 0x5768b525 case 5 => 0x206f85b3 case 6 => 0xb966d409 case 7 => 0xce61e49f
    case 8 => 0x5edef90e case 9 => 0x29d9c998 case 10 => 0xb0d09822 case 11 => 0xc7d7a8b4
    case 12 => 0x59b33d17 case 13 => 0x2eb40d81 case 14 => 0xb7bd5c3b case _ => 0xc0ba6cad
  }

  function Row8(j: bv8): bv32 {
    match j
    case 0 => 0xedb88320 case 1 => 0x9abfb3b6 case 2 => 0x03b6e20c case 3 => 0x74b1d29a
    case 4 => 0xead54739 case 5 => 0x9dd277af case 6 => 0x04db2615 case 7 => 0x73dc1683
    case 8 => 0xe3630b12 case 9 => 0x94643b84 case 10 => 0x0d6d6a3e case 11 => 0x7a6a5aa8
    case 12 => 0xe40ecf0b case 13 => 0x9309ff9d case 14 => 0x0a00ae27 case _ => 0x7d079eb1
  }

  function Row9(j: bv8): bv32 {
    match j
    case 0 => 0xf00f9344 case 1 => 0x8708a3d2 case 2 => 0x1e01f268 case 3 => 0x6906c2fe
    case 4 => 0xf762575d case 5 => 0x806567cb case 6 => 0x196c3671 case 7 => 0x6e6b06e7
    case 8 => 0xfed41b76 case 9 => 0x89d32be0 case 10 => 0x10da7a5a case 11 => 0x67dd4acc
    case 12 => 0xf9b9df6f case 13 => 0x8ebeeff9 case 14 => 0x17b7be43 case _ => 0x60b08ed5
  }

  function RowA(j: bv8): bv32 {
    match j
    case 0 => 0xd6d6a3e8 case 1 => 0xa1d1937e case 2 => 0x38d8c2c4 case 3 => 0x4fdff252
    case 4 => 0xd1bb67f1 case 5 => 0xa6bc5767 case 6 => 0x3fb506dd case 7 => 0x48b2364b
    case 8 => 0xd80d2bda case 9 => 0xaf0a1b4c case 10 => 0x36034af6 case 11 => 0x41047a60
    case 12 => 0xdf60efc3 case 13 => 0xa867df55 case 14 => 0x316e8eef case _ => 0x4669be79
  }

  function RowB(j: bv8): bv32 {
    match j
    case 0 => 0xcb61b38c case 1 => 0xbc66831a case 2 => 0x256fd2a0 case 3 => 0x5268e236
    case 4 => 0xcc0c7795 case 5 => 0xbb0b4703 case 6 => 0x220216b9 case 7 => 0x5505262f
    case 8 => 0xc5ba3bbe case 9 => 0xb2bd0b28 case 10 => 0x2bb45a92 case 11 => 0x5cb36a04
    case 12 => 0xc2d7ffa7 case 13 => 0xb5d0cf31 case 14 => 0x2cd99e8b case _ => 0x5bdeae1d
  }

  function RowC(j: bv8): bv32 {
    match j
    case 0 => 0x9b64c2b0 case 1 => 0xec63f226 case 2 => 0x756aa39c case 3 => 0x026d930a
    case 4 => 0x9c0906a9 case 5 => 0xeb0e363f case 6 => 0x72076785 case 7 => 0x05005713
    case 8 => 0x95bf4a82 case 9 => 0xe2b87a14 case 10 => 0x7bb12bae case 11 => 0x0cb61b38
    case 12 => 0x92d28e9b case 13 => 0xe5d5be0d case 14 => 0x7cdcefb7 case _ => 0x0bdbdf21
  }

  function RowD(j: bv8): bv32 {
    match j
    case 0 => 0x86d3d2d4 case 1 => 0xf1d4e242 case 2 => 0x68ddb3f8 case 3 => 0x1fda836e
    case 4 => 0x81be16cd case 5 => 0xf6b9265b case 6 => 0x6fb077e1 case 7 => 0x18b74777
    case 8 => 0x88085ae6 case 9 => 0xff0f6a70 case 10 => 0x66063bca case 11 => 0x11010b5c
    case 12 => 0x8f659eff case 13 => 0xf862ae69 case 14 => 0x616bffd3 case _ => 0x166ccf45
  }

  function RowE(j: bv8): bv32 {
    match j
    case 0 => 0xa00ae278 case 1 => 0xd70dd2ee case 2 => 0x4e048354 case 3 => 0x3903b3c2
    case 4 => 0xa7672661 case 5 => 0xd06016f7 case 6 => 0x4969474d case 7 => 0x3e6e77db
    case 8 => 0xaed16a4a case 9 => 0xd9d65adc case 10 => 0x40df0b66 case 11 => 0x37d83bf0
    case 12 => 0xa9bcae53 case 13 => 0xdebb9ec5 case 14 => 0x47b2cf7f case _ => 0x30b5ffe9
  }

  function RowF(j: bv8): bv32 {
    match j
    case 0 => 0xbdbdf21c case 1 => 0xcabac28a case 2 => 0x53b39330 case 3 => 0x24b4a3a6
    case 4 => 0xbad03605 case 5 => 0xcdd70693 case 6 => 0x54de5729 case 7 => 0x23d967bf
    case 8 => 0xb3667a2e case 9 => 0xc4614ab8 case 10 => 0x5d681b02 case 11 => 0x2a6f2b94
    case 12 => 0xb40bbe37 case 13 => 0xc30c8ea1 case 14 => 0x5a05df1b case _ => 0x2d02ef8d
  }

  function Table(i: bv8): bv32 {
    var j := i & 0xF;
    match i >> 4
    case 0 => Row0(j) case 1 => Row1(j) case 2 => Row2(j) case 3 => Row3(j)
    case 4 => Row4(j) case 5 => Row5(j) case 6 => Row6(j) case 7 => Row7(j)
    case 8 => Row8(j) case 9 => Row9(j) case 10 => RowA(j) case 11 => RowB(j)
    case 12 => RowC(j) case 13 => RowD(j) case 14 => RowE(j) case _ => RowF(j)
  }

  // ------------------------------------------------------------------ the code

  // char is signed, so a byte with its top bit set arrives as a negative int.
  function SignExtend(c: bv8): bv32 {
    if c & 0x80 != 0 then 0xFFFF_FF00 | (c as bv32) else c as bv32
  }

  function Combine(str: seq<bv8>, part: bv32, idx: nat): bv32
    requires idx < |str|
  {
    (part >> 8) ^ Table(((part ^ SignExtend(str[idx])) & 0xFF) as bv8)
  }

  // The template recursion; -1 is size_t(-1), its stop.
  function Crc32(str: seq<bv8>, idx: int): bv32
    requires -1 <= idx < |str|
    decreases idx + 1
  {
    if idx == -1 then INIT else Combine(str, Crc32(str, idx - 1), idx)
  }

  // The constexpr recursion; it never reads str[0].
  function CtCrc32(str: seq<bv8>, len: nat): bv32
    requires len < |str|
  {
    if len == 0 then INIT else Combine(str, CtCrc32(str, len - 1), len)
  }

  function Literal(str: seq<bv8>): bv32
    requires |str| > 0
  {
    Crc32(str, |str| - 2) ^ INIT
  }

  function Range(str: seq<bv8>, len: nat): bv32
    requires len < 2 || len - 2 < |str|
  {
    if len < 2 then 0 else CtCrc32(str, len - 2) ^ INIT
  }

  function FindDelimiter(str: seq<bv8>, len: nat): (d: nat)
    requires len < |str|
    ensures d <= len
    ensures d == 0 || str[d] == COLON
    ensures forall k :: d < k <= len ==> str[k] != COLON
  {
    if str[len] == COLON then len else if len == 0 then 0 else FindDelimiter(str, len - 1)
  }

  // The template form stops at index 0 without looking at it.
  function FindDelimiterTemplate(str: seq<bv8>, idx: nat): (d: nat)
    requires idx < |str|
  {
    if idx == 0 then 0 else if str[idx] == COLON then idx else FindDelimiterTemplate(str, idx - 1)
  }

  function HashClassName(str: seq<bv8>): bv32
    requires |str| > 0
  {
    Range(str, FindDelimiter(str, |str| - 1))
  }

  // ------------------------------------------------------------------ the reference

  // The CRC-32 of section 8 of RFC 1952, one bit at a time.
  function Step(c: bv32): bv32 { if c & 1 == 1 then 0xEDB8_8320 ^ (c >> 1) else c >> 1 }

  function Step8(c: bv32): bv32 { Step(Step(Step(Step(Step(Step(Step(Step(c)))))))) }

  function Feed(c: bv32, byte: bv8): bv32 { Step8(c ^ (byte as bv32)) }

  function Register(bytes: seq<bv8>): bv32 {
    if bytes == [] then 0xFFFF_FFFF
    else Feed(Register(bytes[..|bytes| - 1]), bytes[|bytes| - 1])
  }

  function Rfc1952(bytes: seq<bv8>): bv32 { Register(bytes) ^ 0xFFFF_FFFF }

  // ------------------------------------------------------------------ table and bitwise step agree

  lemma Entries0(i: bv8)
    requires i >> 5 == 0
    ensures Table(i) == Step8(i as bv32)
  {}

  lemma Entries1(i: bv8)
    requires i >> 5 == 1
    ensures Table(i) == Step8(i as bv32)
  {}

  lemma Entries2(i: bv8)
    requires i >> 6 == 1
    ensures Table(i) == Step8(i as bv32)
  {}

  lemma Entries4(i: bv8)
    requires i >> 6 == 2
    ensures Table(i) == Step8(i as bv32)
  {}

  lemma Entries6(i: bv8)
    requires i >> 6 == 3
    ensures Table(i) == Step8(i as bv32)
  {}

  lemma TableIsStep8(i: bv8)
    ensures Table(i) == Step8(i as bv32)
  {
    if i >> 5 == 0 {
      Entries0(i);
    } else if i >> 5 == 1 {
      Entries1(i);
    } else if i >> 6 == 1 {
      Entries2(i);
    } else if i >> 6 == 2 {
      Entries4(i);
    } else {
      Entries6(i);
    }
  }

  lemma XorParts(p: bv32, a: bv32, b: bv32)
    ensures (a ^ b) >> 1 == (a >> 1) ^ (b >> 1)
    ensures (a ^ b) & 1 == (a & 1) ^ (b & 1)
    ensures (p ^ a) ^ b == p ^ (a ^ b)
    ensures a ^ (p ^ b) == p ^ (a ^ b)
    ensures (p ^ a) ^ (p ^ b) == a ^ b
    ensures (a & 1 == 0 || a & 1 == 1) && (b & 1 == 0 || b & 1 == 1)
  {}

  lemma StepXor(a: bv32, b: bv32)
    ensures Step(a ^ b) == Step(a) ^ Step(b)
  {
    XorParts(0, a, b);
    XorParts(0xEDB8_8320, a >> 1, b >> 1);
  }

  predicate IsXor(x: bv32, a: bv32, b: bv32) { x == a ^ b }

  lemma StepKeepsXor(x: bv32, a: bv32, b: bv32)
    requires IsXor(x, a, b)
    ensures IsXor(Step(x), Step(a), Step(b))
  {
    StepXor(a, b);
  }

  // A bit step is linear, so eight of them are.
  lemma Step8KeepsXor(x: bv32, a: bv32, b: bv32)
    requires IsXor(x, a, b)
    ensures IsXor(Step8(x), Step8(a), Step8(b))
  {
    StepKeepsXor(x, a, b);
    var x1, a1, b1 := Step(x), Step(a), Step(b);
    StepKeepsXor(x1, a1, b1);
    var x2, a2, b2 := Step(x1), Step(a1), Step(b1);
    StepKeepsXor(x2, a2, b2);
    var x3, a3, b3 := Step(x2), Step(a2), Step(b2);
    StepKeepsXor(x3, a3, b3);
    var x4, a4, b4 := Step(x3), Step(a3), Step(b3);
    StepKeepsXor(x4, a4, b4);
    var x5, a5, b5 := Step(x4), Step(a4), Step(b4);
    StepKeepsXor(x5, a5, b5);
    var x6, a6, b6 := Step(x5), Step(a5), Step(b5);
    StepKeepsXor(x6, a6, b6);
    StepKeepsXor(Step(x6), Step(a6), Step(b6));
  }

  lemma Step8High(z: bv32)
    requires z & 0xFF == 0
    ensures Step8(z) == z >> 8
  {}

  lemma SplitLow(c: bv32)
    ensures IsXor(c, c & 0xFFFF_FF00, c & 0xFF)
    ensures (c & 0xFFFF_FF00) & 0xFF == 0
    ensures (c & 0xFFFF_FF00) >> 8 == c >> 8
    ensures ((c & 0xFF) as bv8) as bv32 == c & 0xFF
  {}

  lemma SignIsMasked(part: bv32, c: bv8)
    ensures (part ^ SignExtend(c)) & 0xFF == (part ^ (c as bv32)) & 0xFF
    ensures (part ^ (c as bv32)) >> 8 == part >> 8
  {}

  // Eight bit steps are one table step: the bits above the lowest byte only move down.
  lemma StepByTable(c: bv32)
    ensures IsXor(Step8(c), c >> 8, Table((c & 0xFF) as bv8))
  {
    SplitLow(c);
    Step8KeepsXor(c, c & 0xFFFF_FF00, c & 0xFF);
    Step8High(c & 0xFFFF_FF00);
    TableIsStep8((c & 0xFF) as bv8);
  }

  lemma FeedByTable(part: bv32, c: bv8)
    ensures IsXor(Feed(part, c), part >> 8, Table(((part ^ SignExtend(c)) & 0xFF) as bv8))
  {
    SignIsMasked(part, c);
    StepByTable(part ^ (c as bv32));
  }

  lemma CombineIsXor(str: seq<bv8>, part: bv32, idx: nat)
    requires idx < |str|
    ensures IsXor(Combine(str, part, idx), part >> 8, Table(((part ^ SignExtend(str[idx])) & 0xFF) as bv8))
  {}

  lemma XorIsUnique(x: bv32, y: bv32, a: bv32, b: bv32)
    requires IsXor(x, a, b) && IsXor(y, a, b)
    ensures x == y
  {}

  // x is what one table step makes of the register and a byte.
  predicate TableStep(x: bv32, part: bv32, byte: bv8) {
    IsXor(x, part >> 8, Table(((part ^ SignExtend(byte)) & 0xFF) as bv8))
  }

  lemma CombineSteps(str: seq<bv8>, part: bv32, idx: nat, byte: bv8)
    requires idx < |str| && byte == str[idx]
    ensures TableStep(Combine(str, part, idx), part, byte)
  {
    CombineIsXor(str, part, idx);
  }

  lemma FeedSteps(part: bv32, byte: bv8)
    ensures TableStep(Feed(part, byte), part, byte)
  {
    FeedByTable(part, byte);
  }

  lemma OneStep(x: bv32, y: bv32, part: bv32, byte: bv8)
    requires TableStep(x, part, byte) && TableStep(y, part, byte)
    ensures x == y
  {
    XorIsUnique(x, y, part >> 8, Table(((part ^ SignExtend(byte)) & 0xFF) as bv8));
  }

  lemma CombineIsFeed(str: seq<bv8>, part: bv32, idx: nat)
    requires idx < |str|
    ensures Combine(str, part, idx) == Feed(part, str[idx])
  {
    CombineSteps(str, part, idx, str[idx]);
    FeedSteps(part, str[idx]);
    OneStep(Combine(str, part, idx), Feed(part, str[idx]), part, str[idx]);
  }

  // ------------------------------------------------------------------ what each form hashes

  lemma FedNext(done: seq<bv8>, init: seq<bv8>, byte: bv8)
    requires done != [] && done[..|done| - 1] == init && done[|done| - 1] == byte
    ensures Register(done) == Feed(Register(init), byte)
  {}

  lemma {:induction false} TemplateFormIsBitwise(str: seq<bv8>, n: nat)
    requires n <= |str|
    ensures Crc32(str, n - 1) == Register(str[..n])
  {
    if n > 0 {
      var done := str[..n];
      assert done[..n - 1] == str[..n - 1] && done[n - 1] == str[n - 1];
      FedNext(done, str[..n - 1], str[n - 1]);
      TemplateFormIsBitwise(str, n - 1);
      CombineIsFeed(str, Crc32(str, n - 2), n - 1);
    }
  }

  lemma ConstexprFeeds(str: seq<bv8>, len: nat)
    requires 0 < len < |str|
    ensures CtCrc32(str, len) == Feed(CtCrc32(str, len - 1), str[len])
  {
    CombineIsFeed(str, CtCrc32(str, len - 1), len);
  }

  lemma {:induction false} ConstexprFormIsBitwise(str: seq<bv8>, len: nat)
    requires len < |str|
    ensures CtCrc32(str, len) == Register(str[1..len + 1])
  {
    if len > 0 {
      var done := str[1..len + 1];
      assert done[..len - 1] == str[1..len] && done[len - 1] == str[len];
      FedNext(done, str[1..len], str[len]);
      ConstexprFormIsBitwise(str, len - 1);
      ConstexprFeeds(str, len);
    }
  }

  // The literal form hashes everything but the terminator.
  lemma LiteralHashesAllButTerminator(str: seq<bv8>)
    requires |str| > 0
    ensures Literal(str) == Rfc1952(str[..|str| - 1])
  {
    TemplateFormIsBitwise(str, |str| - 1);
  }

  // The range form skips byte 0 and stops before byte len - 1.
  lemma RangeHashesInside(str: seq<bv8>, len: nat)
    requires 2 <= len <= |str| + 1
    ensures Range(str, len) == Rfc1952(str[1..len - 1])
  {
    RangeOf(str, len, len - 2, str[1..len - 1]);
  }

  lemma RangeOf(str: seq<bv8>, len: nat, n: nat, inside: seq<bv8>)
    requires len == n + 2 && n < |str| && inside == str[1..n + 1]
    ensures Range(str, len) == Rfc1952(inside)
  {
    ConstexprFormIsBitwise(str, n);
  }

  lemma {:induction false} DelimiterFormsAgree(str: seq<bv8>, idx: nat)
    requires idx < |str|
    ensures FindDelimiterTemplate(str, idx) == FindDelimiter(str, idx)
  {
    if idx > 0 && str[idx] != COLON {
      DelimiterFormsAgree(str, idx - 1);
    }
  }

  // The hash is the CRC-32 of what lies strictly between byte 0 and the byte before the last ':'.
  lemma HashStopsBeforeLastDelimiter(str: seq<bv8>, d: nat)
    requires d < |str|
    requires str[d] == COLON && forall k :: d < k < |str| ==> str[k] != COLON
    ensures HashClassName(str) == Rfc1952(if d < 2 then [] else str[1..d - 1])
  {
    assert FindDelimiter(str, |str| - 1) == d;
    assert Register([]) == INIT;
    if d >= 2 {
      RangeHashesInside(str, d);
    }
  }

  lemma NoDelimiterHashesNothing(str: seq<bv8>)
    requires |str| > 0 && COLON !in str
    ensures HashClassName(str) == 0
  {
    assert FindDelimiter(str, |str| - 1) == 0;
  }

  lemma LastColon(str: seq<bv8>, scope: seq<bv8>, rest: seq<bv8>)
    requires str == scope + [COLON, COLON] + rest && COLON !in rest
    ensures |scope| + 1 < |str| && str[|scope| + 1] == COLON
    ensures forall k :: |scope| + 1 < k < |str| ==> str[k] != COLON
  {
    assert forall k :: |scope| + 1 < k < |str| ==> str[k] in rest;
  }

  // What lies between byte 0 and the byte before the second colon.
  lemma ScopeInside(str: seq<bv8>, scope: seq<bv8>, rest: seq<bv8>, inner: seq<bv8>)
    requires str == scope + [COLON, COLON] + rest && inner == if scope == [] then [] else scope[1..]
    ensures inner == if |scope| + 1 < 2 then [] else str[1..|scope| + 1 - 1]
  {
  }

  lemma HashIsCrcOf(str: seq<bv8>, d: nat, inner: seq<bv8>)
    requires d < |str| && str[d] == COLON && forall k :: d < k < |str| ==> str[k] != COLON
    requires inner == if d < 2 then [] else str[1..d - 1]
    ensures HashClassName(str) == Rfc1952(inner)
  {
    HashStopsBeforeLastDelimiter(str, d);
  }

  // For text of the form scope::rest the hash is the CRC-32 of scope without its first byte,
  // whatever the rest is.
  lemma HashIsCrcOfScope(scope: seq<bv8>, rest: seq<bv8>)
    requires COLON !in rest
    ensures HashClassName(scope + [COLON, COLON] + rest)
         == Rfc1952(if scope == [] then [] else scope[1..])
  {
    var str := scope + [COLON, COLON] + rest;
    var inner := if scope == [] then [] else scope[1..];
    LastColon(str, scope, rest);
    ScopeInside(str, scope, rest, inner);
    HashIsCrcOf(str, |scope| + 1, inner);
  }

  // So two scopes that differ only in their first byte collide.
  lemma FirstByteIsNeverHashed(a: bv8, b: bv8, tail: seq<bv8>, rest: seq<bv8>)
    requires COLON !in rest
    ensures HashClassName([a] + tail + [COLON, COLON] + rest) == HashClassName([b] + tail + [COLON, COLON] + rest)
  {
    HashIsCrcOfScope([a] + tail, rest);
    HashIsCrcOfScope([b] + tail, rest);
    assert ([a] + tail)[1..] == ([b] + tail)[1..];
  }

  // ------------------------------------------------------------------ the check value

  predicate RegisterIs(bytes: seq<bv8>, n: nat, c: bv32) { n <= |bytes| && Register(bytes[..n]) == c }

  lemma FedFrom(bytes: seq<bv8>, n: nat, byte: bv8, c: bv32, next: bv32)
    requires n < |bytes| && bytes[n] == byte && RegisterIs(bytes, n, c) && next == Feed(c, byte)
    ensures RegisterIs(bytes, n + 1, next)
  {
    assert bytes[..n + 1][..n] == bytes[..n];
  }

  lemma CheckFeeds()
    ensures Feed(0xffffffff, 0x31) == 0x7c231048
    ensures Feed(0x7c231048, 0x32) == 0xb0acbb32
    ensures Feed(0xb0acbb32, 0x33) == 0x77b79c2d
    ensures Feed(0x77b79c2d, 0x34) == 0x641c1f5c
    ensures Feed(0x641c1f5c, 0x35) == 0x340ac5e3
    ensures Feed(0x340ac5e3, 0x36) == 0xf68d2c9e
    ensures Feed(0xf68d2c9e, 0x37) == 0xaffc9660
    ensures Feed(0xaffc9660, 0x38) == 0x651f2550
    ensures Feed(0x651f2550, 0x39) == 0x340bc6d9
  {}

  predicate NineDigits(bytes: seq<bv8>) { bytes == [0x31, 0x32, 0x33, 0x34, 0x35, 0x36, 0x37, 0x38, 0x39] }

  // The check bytes at n .. n + 2 take the register from `before` to `after`.
  lemma FedThree(bytes: seq<bv8>, n: nat, x: bv8, y: bv8, z: bv8, before: bv32, after: bv32)
    requires n + 3 <= |bytes| && bytes[n] == x && bytes[n + 1] == y && bytes[n + 2] == z
    requires RegisterIs(bytes, n, before) && Feed(Feed(Feed(before, x), y), z) == after
    ensures RegisterIs(bytes, n + 3, after)
  {
    var c, d := Feed(before, x), Feed(Feed(before, x), y);
    FedFrom(bytes, n, x, before, c);
    FedFrom(bytes, n + 1, y, c, d);
    FedFrom(bytes, n + 2, z, d, after);
  }

  lemma NineAre(bytes: seq<bv8>)
    requires NineDigits(bytes)
    ensures |bytes| == 9 && bytes[..0] == [] && bytes[..9] == bytes
    ensures bytes[0] == 0x31 && bytes[1] == 0x32 && bytes[2] == 0x33
    ensures bytes[3] == 0x34 && bytes[4] == 0x35 && bytes[5] == 0x36
    ensures bytes[6] == 0x37 && bytes[7] == 0x38 && bytes[8] == 0x39
  {
  }

  lemma CheckRegister(bytes: seq<bv8>)
    requires |bytes| == 9 && bytes[..0] == []
    requires bytes[0] == 0x31 && bytes[1] == 0x32 && bytes[2] == 0x33
    requires bytes[3] == 0x34 && bytes[4] == 0x35 && bytes[5] == 0x36
    requires bytes[6] == 0x37 && bytes[7] == 0x38 && bytes[8] == 0x39
    ensures RegisterIs(bytes, 9, 0x340bc6d9)
  {
    CheckFeeds();
    FedThree(bytes, 0, 0x31, 0x32, 0x33, 0xffffffff, 0x77b79c2d);
    FedThree(bytes, 3, 0x34, 0x35, 0x36, 0x77b79c2d, 0xf68d2c9e);
    FedThree(bytes, 6, 0x37, 0x38, 0x39, 0xf68d2c9e, 0x340bc6d9);
  }

  // The CRC-32 of the nine digits, by which implementations are compared.
  lemma CheckValue(bytes: seq<bv8>)
    requires NineDigits(bytes)
    ensures Rfc1952(bytes) == 0xCBF4_3926
  {
    NineAre(bytes);
    CheckRegister(bytes);
  }
}
