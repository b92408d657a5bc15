/** The memory of a call frame and what it costs (vm/ethvm/memory.go, common.go, memoryGasCost in gas_table.go). */
module Memories {
  import opened Words
  import opened Params
  import opened BigEndian

  /** The largest size that memoryGasCost accepts, and the number of words it amounts to. */
  const MAX_MEMORY: uint64 := 0x1F_FFFF_FFE0
  const MAX_WORDS: nat := 0xFFFF_FFFF

  // ---------------------------------------------------------------- sizes

  /** ceil(size / 32) over the mathematical integers. */
  function Words32(size: nat): nat {
    (size + 31) / 32
  }

  /** toWordSize: the exact ceiling on all of uint64, although size + 31 would overflow near its end. */
  function ToWordSize(size: uint64): (words: uint64)
    ensures words == Words32(size)
  {
    if size > MAX_UINT64 - 31 then MAX_UINT64 / 32 + 1 else WrapAdd(size, 31) / 32
  }

  /** calcMemSize64WithUint: None when off + length does not fit a uint64. */
  function CalcMemSize64WithUint(off: Word, length64: uint64): (r: Option<uint64>)
    ensures r.Some? <==> length64 == 0 || off + length64 <= MAX_UINT64
    ensures r.Some? ==> r.value == if length64 == 0 then 0 else off + length64
  {
    if length64 == 0 then Some(0)
    else if off > MAX_UINT64 then None
    else
      var val := WrapAdd(off, length64);
      if val < off then None else Some(val)
  }

  /** calcMemSize64, for a length that is a stack item. */
  function CalcMemSize64(off: Word, l: Word): (r: Option<uint64>)
    ensures r.Some? <==> l == 0 || off + l <= MAX_UINT64
    ensures r.Some? ==> r.value == if l == 0 then 0 else off + l
  {
    if l > MAX_UINT64 then None else CalcMemSize64WithUint(off, l)
  }

  // ---------------------------------------------------------------- fees

  /** The Yellow Paper's memory cost (Appendix H.1) of w words. */
  function Fee(w: nat): nat {
    3 * w + w * w / 512
  }

  lemma FeeMonotone(v: nat, w: nat)
    requires v <= w
    ensures Fee(v) <= Fee(w)
  {
    SquareMonotone(v, w);
  }

  lemma FeeFits(w: nat)
    requires w <= MAX_WORDS
    ensures w * w < TWO_64 && Fee(w) < 0x100_0000_0000_0000
  {
    assert w * w <= MAX_WORDS * MAX_WORDS by {
      SquareMonotone(w, MAX_WORDS);
    }
    FeeMonotone(w, MAX_WORDS);
  }

  lemma SquareMonotone(v: nat, w: nat)
    requires v <= w
    ensures v * v <= w * w
  {
    assert v * v <= v * w;
    assert v * w <= w * w;
  }

  /** Words in use once a region of `size` bytes has been requested from a memory of w words. */
  function Grown(w: nat, size: nat): nat {
    if w < Words32(size) then Words32(size) else w
  }

  /** What a run of requests is charged, request by request. */
  function Charged(w: nat, sizes: seq<nat>): int
    decreases |sizes|
  {
    if sizes == [] then 0 else Fee(Grown(w, sizes[0])) - Fee(w) + Charged(Grown(w, sizes[0]), sizes[1..])
  }

  function FinalWords(w: nat, sizes: seq<nat>): nat
    decreases |sizes|
  {
    if sizes == [] then w else FinalWords(Grown(w, sizes[0]), sizes[1..])
  }

  /** The fees telescope: the total depends on the final size alone, not on the steps that led there. */
  lemma {:induction false} FeesTelescope(w: nat, sizes: seq<nat>)
    ensures Charged(w, sizes) == Fee(FinalWords(w, sizes)) - Fee(w)
    decreases |sizes|
  {
    if sizes != [] {
      FeesTelescope(Grown(w, sizes[0]), sizes[1..]);
    }
  }

  /** The final size is the largest request, so any order of the same requests costs the same. */
  lemma {:induction false} FinalWordsIsMax(w: nat, sizes: seq<nat>)
    ensures w <= FinalWords(w, sizes)
    ensures forall i | 0 <= i < |sizes| :: Words32(sizes[i]) <= FinalWords(w, sizes)
    ensures FinalWords(w, sizes) == w || exists i :: 0 <= i < |sizes| && FinalWords(w, sizes) == Words32(sizes[i])
    decreases |sizes|
  {
    if sizes != [] {
      var w', rest := Grown(w, sizes[0]), sizes[1..];
      FinalWordsIsMax(w', rest);
      forall i | 0 <= i < |sizes|
        ensures Words32(sizes[i]) <= FinalWords(w, sizes)
      {
        if i > 0 {
          assert sizes[i] == rest[i - 1];
        }
      }
      if FinalWords(w', rest) != w' {
        var i :| 0 <= i < |rest| && FinalWords(w', rest) == Words32(rest[i]);
        assert sizes[i + 1] == rest[i];
      } else if w' != w {
        assert w' == Words32(sizes[0]);
      }
    }
  }

  // ---------------------------------------------------------------- the memory

  /** copy(dst, value): the leading bytes of dst are replaced by as many bytes of value as there are. */
  function Copy(dst: seq<byte>, value: seq<byte>): (r: seq<byte>)
    ensures |r| == |dst|
  {
    if |value| <= |dst| then value + dst[|value|..] else value[..|dst|]
  }

  function Zeros(n: nat): (z: seq<byte>)
    ensures |z| == n && forall i | 0 <= i < n :: z[i] == 0
  {
    seq(n, _ => 0)
  }

  /** A region of memory lies inside a store of n bytes; the empty region always does, wherever it is. */
  predicate Inside(n: nat, offset: nat, size: nat) {
    size == 0 || offset + size <= n
  }

  class Memory {
    var store: seq<byte>
    var lastGasCost: uint64
    // All fees charged to this frame so far for memory.
    ghost var paid: nat

    constructor ()
      ensures Valid() && store == []
    {
      store, lastGasCost, paid := [], 0, 0;
    }

    /** Between steps: whole words, and lastGasCost is the fee of just these words, paid in full. */
    ghost predicate Valid()
      reads this
    {
      |store| % 32 == 0 && |store| <= MAX_MEMORY && paid == lastGasCost == Fee(|store| / 32)
    }

    /** Inside a step: w words are paid for, of which the store may hold fewer until the resize. */
    ghost predicate PaidFor(w: nat)
      reads this
    {
      |store| % 32 == 0 && |store| <= 32 * w <= MAX_MEMORY && paid == lastGasCost == Fee(w)
    }

    /** Set: panics unless the region lies inside the store. */
    method Set(offset: uint64, size: uint64, value: seq<byte>)
      requires |store| <= MAX_MEMORY
      requires Inside(|store|, offset, size)
      modifies this`store
      ensures size == 0 ==> store == old(store)
      ensures size != 0 ==> store == old(store)[..offset] + Copy(old(store)[offset..offset + size], value) + old(store)[offset + size..]
      ensures |store| == |old(store)|
    {
      if size > 0 {
        if WrapAdd(offset, size) > |store| {
          assert false;
        }
        store := store[..offset] + Copy(store[offset..offset + size], value) + store[offset + size..];
      }
    }

    /** Set32: the 32-byte big-endian form of val. */
    method Set32(offset: uint64, val: Word)
      requires |store| <= MAX_MEMORY
      requires Inside(|store|, offset, 32)
      modifies this`store
      ensures store == old(store)[..offset] + ToBytes(val, 32) + old(store)[offset + 32..]
      ensures |store| == |old(store)|
    {
      if WrapAdd(offset, 32) > |store| {
        assert false;
      }
      var zeroed := store[..offset] + Copy(store[offset..offset + 32], Zeros(32)) + store[offset + 32..];
      var bytes := ToBytes(val, 32);
      store := zeroed[..offset] + bytes + zeroed[offset + 32..];
    }

    /** The assignment store[off] = b of opMstore8. */
    method SetByte(offset: uint64, b: byte)
      requires offset < |store|
      modifies this`store
      ensures store == old(store)[offset := b]
    {
      store := store[offset := b];
    }

    /** Resize never shrinks, and new bytes are zero. */
    method Resize(size: uint64)
      modifies this`store
      ensures store == if |old(store)| < size then old(store) + Zeros(size - |old(store)|) else old(store)
    {
      if |store| < size {
        store := store + Zeros(size - |store|);
      }
    }

    /** GetPtr and GetCopy: the bytes of a region, or nil when it is empty or starts past the end. */
    function GetPtr(offset: int, size: int): (r: seq<byte>)
      requires size == 0 || (0 <= offset && 0 < size && (offset + size <= |store| || |store| <= offset))
      reads this
      ensures size == 0 ==> r == []
      ensures size != 0 && offset + size <= |store| ==> r == store[offset..offset + size]
    {
      if size == 0 then []
      else if |store| > offset then store[offset..offset + size]
      else []
    }

    /** memoryGasCost: the price of growing to newMemSize, with the running total kept in lastGasCost. */
    method GasCost(newMemSize: uint64) returns (r: Result<uint64>)
      requires Valid()
      modifies this`lastGasCost, this`paid
      ensures r.Success? <==> newMemSize <= MAX_MEMORY
      ensures r.Failure? ==> r.error == GasUintOverflow && Valid()
      ensures r.Success? ==> PaidFor(Grown(|store| / 32, newMemSize))
      ensures r.Success? ==> r.value == Fee(Grown(|store| / 32, newMemSize)) - Fee(|store| / 32)
      ensures r.Success? ==> r.value < 0x100_0000_0000_0000
    {
      FeeFits(Grown(|store| / 32, Min(newMemSize, MAX_MEMORY)));
      FeeMonotone(|store| / 32, Grown(|store| / 32, newMemSize));
      if newMemSize == 0 {
        return Success(0);
      }
      if newMemSize > MAX_MEMORY {
        return Failure(GasUintOverflow);
      }
      var newMemSizeWords: uint64 := ToWordSize(newMemSize);
      var roundedSize: uint64 := newMemSizeWords * 32;
      if roundedSize > |store| {
        var square: uint64 := newMemSizeWords * newMemSizeWords;
        var linCoef: uint64 := newMemSizeWords * MEMORY_GAS;
        var quadCoef: uint64 := square / QUAD_COEFF_DIV;
        var newTotalFee: uint64 := linCoef + quadCoef;
        var fee: uint64 := newTotalFee - lastGasCost;
        lastGasCost := newTotalFee;
        paid := paid + fee;
        return Success(fee);
      }
      return Success(0);
    }
  }

  /** The resize of the run loop: once the words are paid for, they are there. */
  method ResizePaid(mem: Memory, memorySize: uint64)
    requires memorySize % 32 == 0 && mem.PaidFor(Grown(|mem.store| / 32, memorySize))
    modifies mem`store
    ensures mem.Valid() && memorySize <= |mem.store|
    ensures old(mem.store) <= mem.store && forall i | |old(mem.store)| <= i < |mem.store| :: mem.store[i] == 0
  {
    assert 32 * Grown(|mem.store| / 32, memorySize) == Max(|mem.store|, memorySize);
    if memorySize > 0 {
      mem.Resize(memorySize);
    }
  }

  /** MSTORE then MLOAD at one address gives the word back. */
  lemma WordRoundTrip(before: seq<byte>, offset: nat, val: Word)
    requires offset + 32 <= |before|
    ensures FromBytes((before[..offset] + ToBytes(val, 32) + before[offset + 32..])[offset..offset + 32]) == val
  {
    var after := before[..offset] + ToBytes(val, 32) + before[offset + 32..];
    assert after[offset..offset + 32] == ToBytes(val, 32);
    Pow256Of32();
    FromToBytes(val, 32);
  }
}
