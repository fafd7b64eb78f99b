/** The variable-width header in front of a cipher text, and its binary form. */
module Headers {
  import opened Bytes
  import opened Words

  // Flags of the leading word.
  const ENFORCE_DIGITAL: bv32 := 0x80000000
  const INTERNAL: bv32 := 0x40000000
  const KERNEL_IDENTIFIER: bv32 := 0x20000000
  const KEY_IDENTIFIER: bv32 := 0x10000000
  const OFFSET_64: bv32 := 0x0C000000
  const OFFSET_32: bv32 := 0x08000000
  const OFFSET_16: bv32 := 0x04000000
  const OFFSET_MASK: bv32 := 0x0C000000
  const LENGTH_64: bv32 := 0x03000000
  const LENGTH_32: bv32 := 0x02000000
  const LENGTH_16: bv32 := 0x01000000
  const LENGTH_MASK: bv32 := 0x03000000
  const DECRYPT_ONCE: bv32 := 0x00800000
  const VERIFY_KEY: bv32 := 0x00400000
  const ALGORITHM: bv32 := 0x00200000
  const END_CHAIN: bv32 := 0x00100000
  const TRAILER: bv32 := 0x00000010

  const FLAGS_SIZE := 4

  const NULL_BYTES: seq<byte> := [0, 0, 0, 0, 0, 0, 0, 0, 0, 0, 0, 0, 0, 0, 0, 0]

  /** The 16 bytes of an identifier, as they lie in memory. */
  type Guid = g: seq<byte> | |g| == 16 witness NULL_BYTES

  const GUID_NULL: Guid := NULL_BYTES

  datatype Header = Header(
    initialized: bool,
    isInternal: bool,
    kernel: Guid,
    waldo: uint32,
    key: Guid,
    offset: uint64,
    length: uint64,
    decryptOnce: bool,
    verifyKey: bool,
    algorithm: uint32,
    endChain: bool,
    compression: uint32,
    keyChecksum: uint32,
    trailer: bool,
    textChecksum: uint32)

  const ZERO := Header(false, false, GUID_NULL, 0, GUID_NULL, 0, 0, false, false, 0, false, 0, 0, false, 0)

  /** How many bytes a 64-bit number is written in. */
  datatype Width = W0 | W16 | W32 | W64

  function Size(w: Width): nat
  {
    match w
    case W0 => 0
    case W16 => 2
    case W32 => 4
    case W64 => 8
  }

  function WidthOf(v: uint64): Width
  {
    if v == 0 then W0
    else if v < 0x1_0000 then W16
    else if v < 0x1_0000_0000 then W32
    else W64
  }

  /** The width of a number is the narrowest that it fits in. */
  lemma NarrowestWidth(v: uint64, w: Width)
    ensures v < Pow2(8 * Size(w)) <==> Size(WidthOf(v)) <= Size(w)
  {
    PowersOfTwo();
  }

  function NumberBytes(v: uint64, order: ByteOrder): (s: seq<byte>)
    ensures |s| == Size(WidthOf(v))
  {
    StoreWord(v, Size(WidthOf(v)), order)
  }

  function Number(w: Width, s: seq<byte>, order: ByteOrder): uint64
    requires |s| == Size(w)
  {
    PowersOfTwo();
    LoadWord(s, order)
  }

  function Image32(v: uint32, order: ByteOrder): (s: seq<byte>)
    ensures |s| == 4
  {
    StoreWord(v, 4, order)
  }

  function Word32(s: seq<byte>, order: ByteOrder): uint32
    requires |s| == 4
  {
    PowersOfTwo();
    LoadWord(s, order)
  }

  lemma Loads32(v: uint32, order: ByteOrder)
    ensures Word32(Image32(v, order), order) == v
  {
    PowersOfTwo();
    WordRoundTrip(v, 4, order);
  }

  function FlagBytes(flags: bv32, order: ByteOrder): (s: seq<byte>)
    ensures |s| == FLAGS_SIZE
  {
    Image32(ValueOf(flags), order)
  }

  function FlagsIn(s: seq<byte>, order: ByteOrder): bv32
    requires |s| == FLAGS_SIZE
  {
    WordOf(Word32(s, order))
  }

  lemma FlagsLoad(flags: bv32, order: ByteOrder)
    ensures FlagsIn(FlagBytes(flags, order), order) == flags
  {
    hide ValueOf, WordOf, Word32, Image32;
    Loads32(ValueOf(flags), order);
    Back(flags);
  }

  /** The narrow form of a number loses nothing. */
  lemma NumberReads(v: uint64, order: ByteOrder)
    ensures Number(WidthOf(v), NumberBytes(v, order), order) == v
  {
    PowersOfTwo();
    WordRoundTrip(v, Size(WidthOf(v)), order);
  }

  /** Which fields a header carries, and its one-bit fields. */
  datatype Shape = Shape(
    kernel: bool,
    key: bool,
    offset: Width,
    length: Width,
    decryptOnce: bool,
    verifyKey: bool,
    algorithm: bool,
    endChain: bool,
    trailer: bool)

  function OffsetFlag(w: Width): bv32
  {
    match w
    case W0 => 0
    case W16 => OFFSET_16
    case W32 => OFFSET_32
    case W64 => OFFSET_64
  }

  function LengthFlag(w: Width): bv32
  {
    match w
    case W0 => 0
    case W16 => LENGTH_16
    case W32 => LENGTH_32
    case W64 => LENGTH_64
  }

  function OffsetWidth(flags: bv32): Width
  {
    if flags & OFFSET_MASK == OFFSET_16 then W16
    else if flags & OFFSET_MASK == OFFSET_32 then W32
    else if flags & OFFSET_MASK == OFFSET_64 then W64
    else W0
  }

  function LengthWidth(flags: bv32): Width
  {
    if flags & LENGTH_MASK == LENGTH_16 then W16
    else if flags & LENGTH_MASK == LENGTH_32 then W32
    else if flags & LENGTH_MASK == LENGTH_64 then W64
    else W0
  }

  function If(on: bool, flag: bv32): bv32
  {
    if on then flag else 0
  }

  function With(flags: bv32, flag: bv32): bv32
  {
    flags | flag
  }

  predicate Has(flags: bv32, flag: bv32)
  {
    flags & flag == flag
  }

  function Flags(kernel: bool, key: bool, offset: Width, length: Width, once: bool, verify: bool,
                 algorithm: bool, chain: bool, trailer: bool): bv32
  {
    var f := With(With(ENFORCE_DIGITAL, If(kernel, KERNEL_IDENTIFIER)), If(key, KEY_IDENTIFIER));
    var g := With(With(f, OffsetFlag(offset)), LengthFlag(length));
    var k := With(With(With(g, If(once, DECRYPT_ONCE)), If(verify, VERIFY_KEY)), If(algorithm, ALGORITHM));
    With(With(k, If(chain, END_CHAIN)), If(trailer, TRAILER))
  }

  /** The leading word of a header that is not internal. */
  function FlagWord(x: Shape): bv32
  {
    Flags(x.kernel, x.key, x.offset, x.length, x.decryptOnce, x.verifyKey, x.algorithm, x.endChain, x.trailer)
  }

  function ShapeIn(flags: bv32): Shape
  {
    Shape(Has(flags, KERNEL_IDENTIFIER), Has(flags, KEY_IDENTIFIER), OffsetWidth(flags), LengthWidth(flags),
          Has(flags, DECRYPT_ONCE), Has(flags, VERIFY_KEY), Has(flags, ALGORITHM),
          Has(flags, END_CHAIN), Has(flags, TRAILER))
  }

  /** The flags of different fields never collide: each can be read back from the word on its own. */
  lemma FlagsReadBack(x: Shape)
    ensures ShapeIn(FlagWord(x)) == x
    ensures !Has(FlagWord(x), INTERNAL) && Has(FlagWord(x), ENFORCE_DIGITAL)
  {
    hide Flags, Has, OffsetWidth, LengthWidth;
    FlagTests(x.kernel, x.key, x.offset, x.length, x.decryptOnce, x.verifyKey, x.algorithm, x.endChain, x.trailer);
  }

  lemma FlagTests(kernel: bool, key: bool, offset: Width, length: Width,
                  once: bool, verify: bool, algorithm: bool, chain: bool, trailer: bool)
    ensures var f := Flags(kernel, key, offset, length, once, verify, algorithm, chain, trailer);
      && !Has(f, INTERNAL) && Has(f, ENFORCE_DIGITAL)
      && Has(f, KERNEL_IDENTIFIER) == kernel && Has(f, KEY_IDENTIFIER) == key
      && OffsetWidth(f) == offset && LengthWidth(f) == length
      && Has(f, DECRYPT_ONCE) == once && Has(f, VERIFY_KEY) == verify && Has(f, ALGORITHM) == algorithm
      && Has(f, END_CHAIN) == chain && Has(f, TRAILER) == trailer
  {
    hide Flags, If, Has, OffsetFlag, LengthFlag, OffsetWidth, LengthWidth;
    FlagsOr(kernel, key, offset, length, once, verify, algorithm, chain, trailer);
    OrTests(kernel, key, offset, length, once, verify, algorithm, chain, trailer);
  }

  lemma FlagsOr(kernel: bool, key: bool, offset: Width, length: Width,
                  once: bool, verify: bool, algorithm: bool, chain: bool, trailer: bool)
    ensures Flags(kernel, key, offset, length, once, verify, algorithm, chain, trailer)
            == ENFORCE_DIGITAL | If(kernel, KERNEL_IDENTIFIER) | If(key, KEY_IDENTIFIER)
                     | OffsetFlag(offset) | LengthFlag(length)
                     | If(once, DECRYPT_ONCE) | If(verify, VERIFY_KEY) | If(algorithm, ALGORITHM)
                     | If(chain, END_CHAIN) | If(trailer, TRAILER)
  {
    hide If, OffsetFlag, LengthFlag;
  }

  lemma OrTests(kernel: bool, key: bool, offset: Width, length: Width,
                  once: bool, verify: bool, algorithm: bool, chain: bool, trailer: bool)
    ensures var f := ENFORCE_DIGITAL | If(kernel, KERNEL_IDENTIFIER) | If(key, KEY_IDENTIFIER)
                     | OffsetFlag(offset) | LengthFlag(length)
                     | If(once, DECRYPT_ONCE) | If(verify, VERIFY_KEY) | If(algorithm, ALGORITHM)
                     | If(chain, END_CHAIN) | If(trailer, TRAILER);
      && !Has(f, INTERNAL) && Has(f, ENFORCE_DIGITAL)
      && Has(f, KERNEL_IDENTIFIER) == kernel && Has(f, KEY_IDENTIFIER) == key
      && OffsetWidth(f) == offset && LengthWidth(f) == length
      && Has(f, DECRYPT_ONCE) == once && Has(f, VERIFY_KEY) == verify && Has(f, ALGORITHM) == algorithm
      && Has(f, END_CHAIN) == chain && Has(f, TRAILER) == trailer
  {
  }

  /** Which bit of the leading word means what: bits 19 to 5 and 3 to 0 are unused. */
  lemma FlagLayout(x: Shape)
    ensures var f := FlagWord(x);
      && f & 0xC000_0000 == 0x8000_0000 && f & 0x000F_FFEF == 0
      && (f & 0x2000_0000 != 0 <==> x.kernel) && (f & 0x1000_0000 != 0 <==> x.key)
      && f & 0x0C00_0000 == (match x.offset case W0 => 0 case W16 => 0x0400_0000
                                           case W32 => 0x0800_0000 case W64 => 0x0C00_0000)
      && f & 0x0300_0000 == (match x.length case W0 => 0 case W16 => 0x0100_0000
                                           case W32 => 0x0200_0000 case W64 => 0x0300_0000)
      && (f & 0x0080_0000 != 0 <==> x.decryptOnce) && (f & 0x0040_0000 != 0 <==> x.verifyKey)
      && (f & 0x0020_0000 != 0 <==> x.algorithm) && (f & 0x0010_0000 != 0 <==> x.endChain)
      && (f & 0x0000_0010 != 0 <==> x.trailer)
  {
    hide Flags;
    FlagsOr(x.kernel, x.key, x.offset, x.length, x.decryptOnce, x.verifyKey, x.algorithm, x.endChain, x.trailer);
  }

  /** A 16-bit value between the internal flag and the lowest byte. */
  function WithMiddle(w: bv32): bv32
  {
    ENFORCE_DIGITAL | INTERNAL | (w << 8)
  }

  function Middle(flags: bv32): bv32
  {
    (flags >> 8) & 0xFFFF
  }

  lemma MiddleReads(w: bv32)
    requires w < 0x1_0000
    ensures Middle(WithMiddle(w)) == w && Has(WithMiddle(w), INTERNAL)
  {
  }

  /** The leading (and only) word of an internal header: it holds the low half of the offset. */
  function InternalWord(offset: uint64): bv32
  {
    WithMiddle(WordOf(LowHalf(offset)))
  }

  function InternalOffset(flags: bv32): uint64
  {
    ValueOf(Middle(flags))
  }

  lemma InternalReads(offset: uint64)
    ensures Has(InternalWord(offset), INTERNAL)
    ensures InternalOffset(InternalWord(offset)) == LowHalf(offset)
  {
    hide ValueOf, WordOf, Has, WithMiddle, Middle;
    Forth(LowHalf(offset));
    Bounded(WordOf(LowHalf(offset)));
    MiddleReads(WordOf(LowHalf(offset)));
  }

  /** An internal word has its two highest bits set; the two lowest bytes of the offset are its middle ones. */
  lemma InternalLayout(offset: uint64)
    ensures InternalWord(offset) & 0xFF00_00FF == 0xC000_0000
    ensures ValueOf((InternalWord(offset) >> 8) & 0xFFFF) == offset % 65536
  {
    hide ValueOf, WordOf;
    InternalReads(offset);
    Forth(LowHalf(offset));
    Bounded(WordOf(LowHalf(offset)));
    MiddleOnly(WordOf(LowHalf(offset)));
  }

  lemma MiddleOnly(w: bv32)
    requires w < 0x1_0000
    ensures WithMiddle(w) & 0xFF00_00FF == 0xC000_0000
  {
  }

  function LowByte(v: uint32): byte
  {
    v % 0x100
  }

  function LowHalf(v: uint64): uint32
  {
    v % 0x1_0000
  }

  function ShapeOf(h: Header): Shape
  {
    Shape(h.kernel != GUID_NULL, h.key != GUID_NULL, WidthOf(h.offset), WidthOf(h.length),
          h.decryptOnce, h.verifyKey, h.algorithm != 0, h.endChain, h.trailer)
  }

  function KernelBytes(h: Header, order: ByteOrder): seq<byte>
  {
    if h.kernel != GUID_NULL then h.kernel + Image32(h.waldo, order) else []
  }

  function IdentifierBytes(h: Header): seq<byte>
  {
    if h.key != GUID_NULL then h.key else []
  }

  function AlgorithmBytes(h: Header): seq<byte>
  {
    if h.algorithm != 0 then [LowByte(h.algorithm)] else []
  }

  /** What follows the flags of a header that is not internal. */
  function Fields(h: Header, order: ByteOrder): seq<byte>
  {
    KernelBytes(h, order)
    + (IdentifierBytes(h) + (NumberBytes(h.offset, order) + (NumberBytes(h.length, order) + AlgorithmBytes(h))))
  }

  function Encode(h: Header, order: ByteOrder): seq<byte>
  {
    if h.isInternal then FlagBytes(InternalWord(h.offset), order)
    else FlagBytes(FlagWord(ShapeOf(h)), order) + Fields(h, order)
  }

  /** Where each field of a header of this shape starts. */
  function KeyAt(x: Shape): nat { FLAGS_SIZE + if x.kernel then 20 else 0 }
  function OffsetAt(x: Shape): nat { KeyAt(x) + if x.key then 16 else 0 }
  function LengthAt(x: Shape): nat { OffsetAt(x) + Size(x.offset) }
  function AlgorithmAt(x: Shape): nat { LengthAt(x) + Size(x.length) }
  function Extent(x: Shape): nat { AlgorithmAt(x) + if x.algorithm then 1 else 0 }

  function GuidAt(s: seq<byte>, at: nat): Guid
    requires at + 16 <= |s|
  {
    s[at..at + 16]
  }

  function DecodeFields(x: Shape, s: seq<byte>, order: ByteOrder): (h: Header)
    requires Extent(x) <= |s|
    ensures h.initialized && !h.isInternal
  {
    Header(
      true, false,
      if x.kernel then GuidAt(s, FLAGS_SIZE) else GUID_NULL,
      if x.kernel then Word32(s[20..24], order) else 0,
      if x.key then GuidAt(s, KeyAt(x)) else GUID_NULL,
      Number(x.offset, s[OffsetAt(x)..LengthAt(x)], order),
      Number(x.length, s[LengthAt(x)..AlgorithmAt(x)], order),
      x.decryptOnce, x.verifyKey,
      if x.algorithm then s[AlgorithmAt(x)..Extent(x)][0] else 0,
      x.endChain, 0, 0, x.trailer, 0)
  }

  datatype Decoded = Short | Decoded(header: Header, consumed: nat)

  /** The header at the start of s and the number of bytes it takes; Short when s ends before the header does. */
  function Decode(s: seq<byte>, order: ByteOrder): Decoded
  {
    if |s| < FLAGS_SIZE then Short
    else
      var flags := FlagsIn(s[..FLAGS_SIZE], order);
      if Has(flags, INTERNAL) then
        Decoded(ZERO.(isInternal := true, offset := InternalOffset(flags), initialized := true), FLAGS_SIZE)
      else if |s| < Extent(ShapeIn(flags)) then Short
      else Decoded(DecodeFields(ShapeIn(flags), s, order), Extent(ShapeIn(flags)))
  }

  /** What the binary form keeps of a header. */
  function Kept(h: Header): Header
  {
    if h.isInternal then ZERO.(isInternal := true, offset := LowHalf(h.offset), initialized := true)
    else
      h.(initialized := true, compression := 0, keyChecksum := 0, textChecksum := 0,
         algorithm := LowByte(h.algorithm),
         waldo := if h.kernel == GUID_NULL then 0 else h.waldo)
  }

  lemma {:induction false} FieldsRead(h: Header, rest: seq<byte>, order: ByteOrder)
    requires !h.isInternal
    ensures var s, x := Encode(h, order) + rest, ShapeOf(h);
      Extent(x) == |Encode(h, order)| && DecodeFields(x, s, order) == Kept(h)
  {
    hide FlagWord, WidthOf, Number, NumberBytes, Image32, Word32;
    hide FLAGS_SIZE, Size;
    var s, x := Encode(h, order) + rest, ShapeOf(h);
    var kernel := KernelBytes(h, order);
    Layout(x, FlagBytes(FlagWord(x), order), kernel, IdentifierBytes(h), NumberBytes(h.offset, order),
           NumberBytes(h.length, order), AlgorithmBytes(h), rest, s);
    if h.kernel != GUID_NULL {
      assert kernel[..16] == h.kernel && kernel[16..] == Image32(h.waldo, order);
      Loads32(h.waldo, order);
    }
    NumberReads(h.offset, order);
    NumberReads(h.length, order);
  }

  lemma Layout(x: Shape, flags: seq<byte>, kernel: seq<byte>, key: seq<byte>, offset: seq<byte>, length: seq<byte>,
               algorithm: seq<byte>, rest: seq<byte>, s: seq<byte>)
    requires |flags| == 4 && |kernel| == (if x.kernel then 20 else 0) && |key| == (if x.key then 16 else 0)
    requires |offset| == Size(x.offset) && |length| == Size(x.length) && |algorithm| == (if x.algorithm then 1 else 0)
    requires s == flags + (kernel + (key + (offset + (length + algorithm)))) + rest
    ensures Extent(x) == |flags + (kernel + (key + (offset + (length + algorithm))))| <= |s|
    ensures x.kernel ==> s[FLAGS_SIZE..20] == kernel[..16] && s[20..24] == kernel[16..]
    ensures s[KeyAt(x)..OffsetAt(x)] == key
    ensures s[OffsetAt(x)..LengthAt(x)] == offset
    ensures s[LengthAt(x)..AlgorithmAt(x)] == length
    ensures s[AlgorithmAt(x)..Extent(x)] == algorithm
  {
    hide Size;
    var tail := length + algorithm;
    Peel(s, 0, flags, kernel + (key + (offset + tail)), rest);
    Peel(s, 4, kernel, key + (offset + tail), rest);
    Peel(s, KeyAt(x), key, offset + tail, rest);
    Peel(s, OffsetAt(x), offset, tail, rest);
    Peel(s, LengthAt(x), length, algorithm, rest);
    assert algorithm + [] == algorithm;
    Peel(s, AlgorithmAt(x), algorithm, [], rest);
    if x.kernel {
      assert kernel == s[4..24];
    }
  }

  lemma Peel(s: seq<byte>, at: nat, part: seq<byte>, more: seq<byte>, rest: seq<byte>)
    requires at <= |s| && s[at..] == (part + more) + rest
    ensures at + |part| <= |s| && s[at..at + |part|] == part && s[at + |part|..] == more + rest
  {
    var t := s[at..];
    assert t[..|part|] == part && t[|part|..] == more + rest;
  }

  /** Where each field of an encoded header stands. */
  lemma EncodedLayout(h: Header, order: ByteOrder)
    requires !h.isInternal
    ensures var s := Encode(h, order);
      var key := 4 + if h.kernel != GUID_NULL then 20 else 0;
      var offset := key + if h.key != GUID_NULL then 16 else 0;
      var length := offset + Size(WidthOf(h.offset));
      var algorithm := length + Size(WidthOf(h.length));
      && |s| == algorithm + (if h.algorithm != 0 then 1 else 0)
      && FlagsIn(s[0..4], order) == FlagWord(ShapeOf(h))
      && (h.kernel != GUID_NULL ==> s[4..20] == h.kernel && LoadWord(s[20..24], order) == h.waldo)
      && (h.key != GUID_NULL ==> s[key..key + 16] == h.key)
      && LoadWord(s[offset..length], order) == h.offset && LoadWord(s[length..algorithm], order) == h.length
      && (h.algorithm != 0 ==> s[algorithm] == h.algorithm % 256)
  {
    hide FlagWord, WidthOf, Size, FlagBytes, FlagsIn, Image32, NumberBytes, LoadWord;
    var s, x := Encode(h, order), ShapeOf(h);
    var kernel, algorithm := KernelBytes(h, order), AlgorithmBytes(h);
    assert s == s + [];
    Layout(x, FlagBytes(FlagWord(x), order), kernel, IdentifierBytes(h), NumberBytes(h.offset, order),
           NumberBytes(h.length, order), algorithm, [], s);
    FlagsLoad(FlagWord(x), order);
    assert s[0..4] == FlagBytes(FlagWord(x), order);
    NumberReads(h.offset, order);
    NumberReads(h.length, order);
    if h.kernel != GUID_NULL {
      assert kernel[..16] == h.kernel && kernel[16..] == Image32(h.waldo, order);
      Loads32(h.waldo, order);
    }
    if h.algorithm != 0 {
      assert s[AlgorithmAt(x)..Extent(x)][0] == algorithm[0];
    }
  }

  /** Whatever follows an encoded header, decoding reads what the encoding kept and stops exactly at its end. */
  lemma DecodesKept(h: Header, rest: seq<byte>, order: ByteOrder)
    ensures Decode(Encode(h, order) + rest, order) == Decoded(Kept(h), |Encode(h, order)|)
  {
    hide FlagWord, ShapeIn, ShapeOf, Has, InternalWord, InternalOffset, FlagBytes, FlagsIn, Fields, Extent, DecodeFields;
    var s := Encode(h, order) + rest;
    if h.isInternal {
      assert s[..FLAGS_SIZE] == FlagBytes(InternalWord(h.offset), order);
      FlagsLoad(InternalWord(h.offset), order);
      InternalReads(h.offset);
    } else {
      assert s[..FLAGS_SIZE] == FlagBytes(FlagWord(ShapeOf(h)), order);
      FlagsLoad(FlagWord(ShapeOf(h)), order);
      FlagsReadBack(ShapeOf(h));
      FieldsRead(h, rest, order);
    }
  }

  /** The headers that the binary form keeps whole. */
  predicate Encodable(h: Header)
  {
    if h.isInternal then
      h.offset < 0x1_0000 && h == ZERO.(isInternal := true, offset := h.offset, initialized := h.initialized)
    else
      && h.algorithm < 0x100 && (h.kernel == GUID_NULL ==> h.waldo == 0)
      && h.compression == 0 && h.keyChecksum == 0 && h.textChecksum == 0
  }

  /** Decoding undoes encoding, and stops exactly at the end of the header, for these headers and no others. */
  lemma CodecRoundTrip(h: Header, rest: seq<byte>, order: ByteOrder)
    ensures Decode(Encode(h, order) + rest, order) == Decoded(h.(initialized := true), |Encode(h, order)|)
            <==> Encodable(h)
  {
    hide Decode, Encode;
    DecodesKept(h, rest, order);
  }

  /** A header cut short is always noticed. */
  lemma TruncatedIsShort(h: Header, n: nat, order: ByteOrder)
    requires n < |Encode(h, order)|
    ensures Decode(Encode(h, order)[..n], order) == Short
  {
    hide FlagWord, ShapeIn, ShapeOf, Has, InternalWord, FlagBytes, FlagsIn, Fields, Extent, DecodeFields;
    var s := Encode(h, order);
    if !h.isInternal && FLAGS_SIZE <= n {
      assert s[..n][..FLAGS_SIZE] == FlagBytes(FlagWord(ShapeOf(h)), order);
      FlagsLoad(FlagWord(ShapeOf(h)), order);
      FlagsReadBack(ShapeOf(h));
      FieldsRead(h, [], order);
    }
  }

  /** A header never takes more than 57 bytes. */
  lemma EncodedSize(h: Header, order: ByteOrder)
    ensures FLAGS_SIZE <= |Encode(h, order)| <= 57
    ensures h.isInternal ==> |Encode(h, order)| == FLAGS_SIZE
  {
    hide FlagWord, InternalWord, WidthOf, FlagBytes, Image32, NumberBytes;
  }
}
