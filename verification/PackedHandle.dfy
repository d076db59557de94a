/**
 The packed handle that crosses the WASM boundary: a 32-bit pointer in the high half
 of a 64-bit word and a 32-bit length in the low half, in the two encodings the SDK
 has (the ABI package and the typed bridge).

 Machine words are numbers below their range; shifts, truncation and bitwise-or are
 written out on them.
 */
module PackedHandle {
  import opened GoTypes

  const PTR_HIGH_BITS: nat := 32

  // ---------- Word operations ----------

  function Pow2(k: nat): (p: nat)
    ensures p > 0
  {
    if k == 0 then 1 else 2 * Pow2(k - 1)
  }

  function ShiftLeft64(x: uint64, k: nat): uint64 {
    (x * Pow2(k)) % 0x1_0000_0000_0000_0000
  }

  function ShiftRight(x: uint64, k: nat): uint64 {
    ShrinkByDivision(x, Pow2(k));
    x / Pow2(k)
  }

  /** Conversion of a 64-bit word to 32 bits drops the high half. */
  function Truncate32(x: uint64): uint32 {
    x % 0x1_0000_0000
  }

  function BitOr(a: nat, b: nat): nat {
    if a == 0 then b
    else 2 * BitOr(a / 2, b / 2) + (if a % 2 == 1 || b % 2 == 1 then 1 else 0)
  }

  lemma ShrinkByDivision(x: nat, d: nat)
    requires d > 0
    ensures 0 <= x / d <= x
  {
    ProductDominates(x / d, d);
  }

  lemma ProductDominates(q: nat, d: nat)
    requires d > 0
    ensures q <= q * d
  {
    assert q * d == q * (d - 1) + q;
  }

  function Bit(n: nat, i: nat): nat {
    if i == 0 then n % 2 else Bit(n / 2, i - 1)
  }

  /** `BitOr` is the bitwise operation: bit `i` is set iff it is set in an operand. */
  lemma {:induction false} BitOrIsBitwise(a: nat, b: nat, i: nat)
    ensures Bit(BitOr(a, b), i) == 1 <==> Bit(a, i) == 1 || Bit(b, i) == 1
    decreases i
  {
    if a == 0 {
      ZeroHasNoBits(i);
    } else if i > 0 {
      BitOrIsBitwise(a / 2, b / 2, i - 1);
    }
  }

  lemma {:induction false} ZeroHasNoBits(i: nat)
    ensures Bit(0, i) == 0
  {
    if i > 0 { ZeroHasNoBits(i - 1); }
  }

  /** Or-ing a number into the zero bits below it adds it. */
  lemma {:induction false} BitOrOfDisjointBitsIsSum(high: nat, low: nat, k: nat)
    requires low < Pow2(k)
    ensures BitOr(high * Pow2(k), low) == high * Pow2(k) + low
    decreases k
  {
    if high > 0 && k > 0 {
      var half := high * Pow2(k - 1);
      assert high * Pow2(k) == 2 * half;
      BitOrOfDisjointBitsIsSum(high, low / 2, k - 1);
    } else if high > 0 {
      assert low == 0;
      BitOrZero(high * Pow2(k));
    }
  }

  lemma {:induction false} BitOrZero(a: nat)
    ensures BitOr(a, 0) == a
  {
    if a > 0 { BitOrZero(a / 2); }
  }

  lemma Pow2At32()
    ensures Pow2(32) == 0x1_0000_0000
  {
    assert Pow2(4) == 16;
    assert Pow2(8) == 256;
    assert Pow2(12) == 4096;
    assert Pow2(16) == 65536;
    assert Pow2(20) == 0x10_0000;
    assert Pow2(24) == 0x100_0000;
    assert Pow2(28) == 0x1000_0000;
  }

  /** The packing expression, evaluated. */
  lemma ShiftOr(ptr: uint32, length: uint32)
    ensures BitOr(ShiftLeft64(ptr, PTR_HIGH_BITS), length) == ptr * 0x1_0000_0000 + length
  {
    Pow2At32();
    ShiftOrBy(ptr, length, PTR_HIGH_BITS);
  }

  lemma ShiftOrBy(ptr: uint32, length: uint32, k: nat)
    requires Pow2(k) == 0x1_0000_0000
    ensures BitOr(ShiftLeft64(ptr, k), length) == ptr * 0x1_0000_0000 + length
  {
    BitOrOfDisjointBitsIsSum(ptr, length, k);
    assert ptr * Pow2(k) == ptr * 0x1_0000_0000;
  }

  // ---------- internal/abi ----------

  /** Panics on a null pointer with a length. */
  function PackPtrLen(ptr: uint32, length: uint32): (r: Go<uint64>)
    ensures r == Panic <==> ptr == 0 && length > 0
    ensures r.Ok? ==> r.value == ptr * 0x1_0000_0000 + length
  {
    if ptr == 0 && length > 0 then Panic
    else
      ShiftOr(ptr, length);
      Ok(BitOr(ShiftLeft64(ptr, PTR_HIGH_BITS), length))
  }

  function UnpackPtrLen(packed: uint64): (r: Go<(uint32, uint32)>)
    ensures r == Panic <==> 0 < packed < 0x1_0000_0000
    ensures r.Ok? ==> packed == r.value.0 * 0x1_0000_0000 + r.value.1
  {
    Pow2At32();
    var ptr, length := Truncate32(ShiftRight(packed, PTR_HIGH_BITS)), Truncate32(packed);
    assert ShiftRight(packed, PTR_HIGH_BITS) == packed / 0x1_0000_0000;
    if ptr == 0 && length > 0 then Panic else Ok((ptr, length))
  }

  /** Packing, when it does not panic, is undone by unpacking. */
  lemma PackThenUnpack(ptr: uint32, length: uint32)
    requires ptr != 0 || length == 0
    ensures PackPtrLen(ptr, length).Ok?
    ensures UnpackPtrLen(PackPtrLen(ptr, length).value) == Ok((ptr, length))
  {
    var packed := PackPtrLen(ptr, length).value;
    var unpacked := UnpackPtrLen(packed).value;
    assert packed / 0x1_0000_0000 == ptr && packed % 0x1_0000_0000 == length;
  }

  /** Unpacking, when it does not panic, yields a packable pair and is undone by packing it. */
  lemma UnpackThenPack(packed: uint64)
    requires UnpackPtrLen(packed).Ok?
    ensures var (ptr, length) := UnpackPtrLen(packed).value; PackPtrLen(ptr, length) == Ok(packed)
  {
  }

  // ---------- application/plugin/bridge.go ----------

  /** Where the bytes of a slice are; an empty slice is nowhere. */
  datatype Region = NoRegion | Region(ptr: uint32, length: uint32)

  /** A region that bytes can occupy: its address is not null and it is not empty. */
  predicate Real(r: Region) {
    r.Region? ==> r.ptr > 0 && r.length > 0
  }

  function BridgePack(r: Region): uint64 {
    match r
    case NoRegion => 0
    case Region(ptr, length) =>
      ShiftOr(ptr, length);
      BitOr(ShiftLeft64(ptr, PTR_HIGH_BITS), length)
  }

  function BridgeUnpack(packed: uint64): Region {
    Pow2At32();
    var ptr, length := Truncate32(ShiftRight(packed, PTR_HIGH_BITS)), Truncate32(packed);
    if ptr == 0 || length == 0 then NoRegion else Region(ptr, length)
  }

  /** The region the ABI reads or frees for an unpacked pair. */
  function AbiRegion(pair: (uint32, uint32)): Region {
    if pair.0 == 0 || pair.1 == 0 then NoRegion else Region(pair.0, pair.1)
  }

  /**
   The bridge reads the region the ABI reads, for every word; it differs only on
   the words the ABI rejects, where it sees no data instead of panicking.
   */
  lemma BridgeAgreesWithAbi(packed: uint64)
    ensures BridgeUnpack(packed) == match UnpackPtrLen(packed)
                                    case Ok(pair) => AbiRegion(pair)
                                    case Panic => NoRegion
  {
  }

  /** Every real region survives the bridge, and both packages pack it to the same word. */
  lemma BridgeRoundTrip(r: Region)
    requires Real(r)
    ensures BridgeUnpack(BridgePack(r)) == r
    ensures r.Region? ==> PackPtrLen(r.ptr, r.length) == Ok(BridgePack(r))
  {
    if r.Region? {
      ShiftOr(r.ptr, r.length);
      PackThenUnpack(r.ptr, r.length);
      BridgeAgreesWithAbi(BridgePack(r));
    } else {
      BridgeAgreesWithAbi(0);
    }
  }

  /** The words a region packs to are exactly 0 and those with both halves non-zero. */
  lemma BridgeWords(packed: uint64)
    ensures BridgePack(BridgeUnpack(packed)) == packed <==>
            packed == 0 || (packed >= 0x1_0000_0000 && Truncate32(packed) != 0)
  {
    BridgeAgreesWithAbi(packed);
    if UnpackPtrLen(packed).Ok? {
      UnpackThenPack(packed);
      var (ptr, length) := UnpackPtrLen(packed).value;
      assert Truncate32(packed) == length;
      if ptr > 0 && length > 0 { BridgeRoundTrip(Region(ptr, length)); }
    }
  }
}
