/** JUMPDEST analysis (vm/ethvm/analysis.go): the bit-packed map of PUSH data. */
module Analysis {
  import opened Words

  type Code = seq<byte>

  const PUSH1: byte := 0x60
  const PUSH32: byte := 0x7f

  predicate IsPush(op: byte) {
    PUSH1 <= op <= PUSH32
  }

  /** Length in bytes of the instruction that starts with op, argument included. */
  function InstructionLength(op: byte): (n: nat)
    ensures 1 <= n <= 33
  {
    if IsPush(op) then op - PUSH1 + 2 else 1
  }

  /** A scan of the code that starts at instruction `from` meets an instruction (or the end of the scan) at `i`. */
  ghost predicate Scans(code: Code, from: nat, i: nat)
    decreases i - from
  {
    from == i || (from < i && from < |code| && Scans(code, from + InstructionLength(code[from]), i))
  }

  /** The naive notion: i is where some instruction of the program begins. */
  ghost predicate IsBoundary(code: Code, i: nat) {
    Scans(code, 0, i)
  }

  /** Byte i is an argument of the PUSH instruction that starts at p. */
  ghost predicate IsArgumentOf(code: Code, p: nat, i: nat) {
    p < |code| && IsBoundary(code, p) && IsPush(code[p]) && p < i < p + InstructionLength(code[p])
  }

  ghost predicate IsPushData(code: Code, i: nat) {
    exists p: nat :: IsArgumentOf(code, p, i)
  }

  // ---------------------------------------------------------------- the scanner

  lemma {:induction false} ScansExtends(code: Code, from: nat, p: nat)
    requires Scans(code, from, p) && p < |code|
    ensures Scans(code, from, p + InstructionLength(code[p]))
    decreases p - from
  {
    if from == p {
      assert Scans(code, p + InstructionLength(code[p]), p + InstructionLength(code[p]));
    } else {
      ScansExtends(code, from + InstructionLength(code[from]), p);
    }
  }

  /** Nothing strictly inside an instruction is the start of one. */
  lemma {:induction false} NoBoundaryInside(code: Code, from: nat, p: nat, i: nat)
    requires Scans(code, from, p) && p < |code|
    requires p < i < p + InstructionLength(code[p])
    ensures !Scans(code, from, i)
    decreases p - from
  {
    if from < p {
      NoBoundaryInside(code, from + InstructionLength(code[from]), p, i);
    }
  }

  lemma {:induction false} CoveredFrom(code: Code, from: nat, i: nat)
    requires IsBoundary(code, from)
    requires from <= i < |code|
    requires !Scans(code, from, i)
    ensures IsPushData(code, i)
    decreases i - from
  {
    var next := from + InstructionLength(code[from]);
    ScansExtends(code, 0, from);
    if i < next {
      assert IsArgumentOf(code, from, i);
    } else {
      CoveredFrom(code, next, i);
    }
  }

  /** Instruction starts and PUSH arguments partition the code: each byte is exactly one of the two. */
  lemma BoundaryOrPushData(code: Code, i: nat)
    requires i < |code|
    ensures IsBoundary(code, i) <==> !IsPushData(code, i)
  {
    if IsPushData(code, i) {
      var p: nat :| IsArgumentOf(code, p, i);
      NoBoundaryInside(code, 0, p, i);
    }
    if !IsBoundary(code, i) {
      CoveredFrom(code, 0, i);
    }
  }

  // ---------------------------------------------------------------- bits of a byte

  predicate BitAt(b: bv8, k: nat)
    requires k < 8
  {
    (b >> k) & 1 == 1
  }

  /** The i-th bit of the vector. */
  predicate Bit(bits: seq<bv8>, i: nat)
    requires i / 8 < |bits|
  {
    BitAt(bits[i / 8], i % 8)
  }

  lemma BitOfOr(a: bv8, b: bv8, k: nat)
    requires k < 8
    ensures BitAt(a | b, k) == (BitAt(a, k) || BitAt(b, k))
  {
    if k == 0 {} else if k == 1 {} else if k == 2 {} else if k == 3 {}
    else if k == 4 {} else if k == 5 {} else if k == 6 {} else {}
  }

  /** Bits of one, of eight ones and of their complement, shifted left by p within a byte. */
  lemma BitsOfShifts(p: nat, k: nat)
    requires p < 8 && k < 8
    ensures BitAt(1 << p, k) == (k == p)
    ensures BitAt(0xFF << p, k) == (p <= k)
    ensures BitAt(!(0xFF << p), k) == (k < p)
  {
    if p == 0 {} else if p == 1 {} else if p == 2 {} else if p == 3 {}
    else if p == 4 {} else if p == 5 {} else if p == 6 {} else {}
    if k == 0 {} else if k == 1 {} else if k == 2 {} else if k == 3 {}
    else if k == 4 {} else if k == 5 {} else if k == 6 {} else {}
  }

  /** The masks set2BitsMask .. set7BitsMask: n low ones. */
  function Ones(n: nat): bv16
    requires 2 <= n <= 7
  {
    if n == 2 then 0x3 else if n == 3 then 0x7 else if n == 4 then 0xF
    else if n == 5 then 0x1F else if n == 6 then 0x3F else 0x7F
  }

  /** The two bytes that a run of n ones, shifted left by p, occupies. */
  lemma BitsOfRun(n: nat, p: nat, k: nat)
    requires 2 <= n <= 7 && p < 8 && k < 8
    ensures BitAt(((Ones(n) << p) & 0xFF) as bv8, k) == (p <= k < p + n)
    ensures BitAt(((Ones(n) << p) >> 8) as bv8, k) == (k + 8 < p + n)
  {
    if p == 0 {} else if p == 1 {} else if p == 2 {} else if p == 3 {}
    else if p == 4 {} else if p == 5 {} else if p == 6 {} else {}
    if k == 0 {} else if k == 1 {} else if k == 2 {} else if k == 3 {}
    else if k == 4 {} else if k == 5 {} else if k == 6 {} else {}
  }

  // ---------------------------------------------------------------- the bit vector

  /** No bit at or after pos is set. */
  ghost predicate ClearFrom(bits: seq<bv8>, pos: nat) {
    forall i: nat | pos <= i && i / 8 < |bits| :: !Bit(bits, i)
  }

  /** after is before with the n bits from pos set, and no other bit changed. */
  ghost predicate RunSet(before: seq<bv8>, after: seq<bv8>, pos: nat, n: nat) {
    |after| == |before| &&
    forall i: nat | i / 8 < |before| :: Bit(after, i) == (Bit(before, i) || pos <= i < pos + n)
  }

  /** A byte wholly at or after pos is zero when the bits from pos on are clear. */
  lemma ClearByte(bits: seq<bv8>, pos: nat, b: nat, k: nat)
    requires ClearFrom(bits, pos)
    requires pos <= 8 * b && b < |bits| && k < 8
    ensures !BitAt(bits[b], k)
  {
    assert (8 * b + k) / 8 == b && (8 * b + k) % 8 == k;
    assert !Bit(bits, 8 * b + k);
  }

  method Set1(bits: array<bv8>, pos: nat)
    requires pos / 8 < bits.Length
    modifies bits
    ensures RunSet(old(bits[..]), bits[..], pos, 1)
  {
    var a: bv8 := 1 << (pos % 8);
    bits[pos / 8] := bits[pos / 8] | a;
    forall k: nat | k < 8
      ensures BitAt(a, k) == (k == pos % 8)
    {
      BitsOfShifts(pos % 8, k);
    }
    forall i: nat | i / 8 < bits.Length
      ensures Bit(bits[..], i) == (old(Bit(bits[..], i)) || pos <= i < pos + 1)
    {
      ByteBit(old(bits[..]), bits[..], pos, a, i);
    }
  }

  lemma ByteBit(before: seq<bv8>, after: seq<bv8>, pos: nat, a: bv8, i: nat)
    requires i / 8 < |before| == |after| && pos / 8 < |before|
    requires forall k: nat | k < 8 :: BitAt(a, k) == (k == pos % 8)
    requires after[pos / 8] == before[pos / 8] | a
    requires i / 8 != pos / 8 ==> after[i / 8] == before[i / 8]
    ensures Bit(after, i) == (Bit(before, i) || i == pos)
  {
    var b, k := pos / 8, i % 8;
    assert pos == 8 * b + pos % 8 && i == 8 * (i / 8) + k;
    if i / 8 == b {
      BitOfOr(before[b], a, k);
    }
  }

  /** setN overwrites the byte after the first instead of or-ing into it: right only while that byte is zero. */
  method SetN(bits: array<bv8>, n: nat, pos: nat)
    requires 2 <= n <= 7
    requires (pos + n - 1) / 8 < bits.Length
    requires ClearFrom(bits[..], pos)
    modifies bits
    ensures RunSet(old(bits[..]), bits[..], pos, n)
  {
    var low, high := RunBytes(n, pos % 8);
    ghost var before := bits[..];
    bits[pos / 8] := bits[pos / 8] | low;
    if high != 0 {
      bits[pos / 8 + 1] := high;
    }
    forall i: nat | i / 8 < |before|
      ensures Bit(bits[..], i) == (Bit(before, i) || pos <= i < pos + n)
    {
      RunBit(before, bits[..], n, pos, low, high, i);
    }
  }

  lemma RunBit(before: seq<bv8>, after: seq<bv8>, n: nat, pos: nat, low: bv8, high: bv8, i: nat)
    requires 2 <= n <= 7 && i / 8 < |before| == |after| && pos / 8 < |before|
    requires ClearFrom(before, pos)
    requires forall k: nat | k < 8 :: BitAt(low, k) == (pos % 8 <= k < pos % 8 + n)
    requires forall k: nat | k < 8 :: BitAt(high, k) == (k + 8 < pos % 8 + n)
    requires high != 0 <==> pos % 8 + n > 8
    requires after[pos / 8] == before[pos / 8] | low
    requires i / 8 == pos / 8 + 1 ==> after[i / 8] == if high != 0 then high else before[i / 8]
    requires i / 8 != pos / 8 && i / 8 != pos / 8 + 1 ==> after[i / 8] == before[i / 8]
    ensures Bit(after, i) == (Bit(before, i) || pos <= i < pos + n)
  {
    var b, p, j, k := pos / 8, pos % 8, i / 8, i % 8;
    assert pos == 8 * b + p && i == 8 * j + k;
    if j == b {
      BitOfOr(before[b], low, k);
    } else if j == b + 1 {
      ClearByte(before, pos, j, k);
    }
  }

  /** The bytes `byte(a)` and `byte(a >> 8)` of the mask of n ones shifted left by p. */
  method RunBytes(n: nat, p: nat) returns (low: bv8, high: bv8)
    requires 2 <= n <= 7 && p < 8
    ensures forall k: nat | k < 8 :: BitAt(low, k) == (p <= k < p + n)
    ensures forall k: nat | k < 8 :: BitAt(high, k) == (k + 8 < p + n)
    ensures high != 0 <==> p + n > 8
  {
    var a: bv16 := Ones(n) << p;
    low, high := (a & 0xFF) as bv8, (a >> 8) as bv8;
    forall k: nat | k < 8
      ensures BitAt(low, k) == (p <= k < p + n) && BitAt(high, k) == (k + 8 < p + n)
    {
      BitsOfRun(n, p, k);
    }
    RunNeedsSecondByte(n, p);
  }

  /** The high byte of the shifted run is nonzero only if the run crosses into the next byte. */
  lemma RunNeedsSecondByte(n: nat, p: nat)
    requires 2 <= n <= 7 && p < 8
    ensures ((Ones(n) << p) >> 8) as bv8 != 0 <==> p + n > 8
  {
    if p == 0 {} else if p == 1 {} else if p == 2 {} else if p == 3 {}
    else if p == 4 {} else if p == 5 {} else if p == 6 {} else {}
  }

  /** byte(0xFF << p): the ones of a run that starts at bit p; its complement is what spills into the last byte. */
  method OnesFrom(p: nat) returns (a: bv8)
    requires p < 8
    ensures forall k: nat | k < 8 :: BitAt(a, k) == (p <= k)
    ensures var z := !a; forall k: nat | k < 8 :: BitAt(z, k) == (k < p)
  {
    a := 0xFF << p;
    var z := !a;
    forall k: nat | k < 8
      ensures BitAt(a, k) == (p <= k) && BitAt(z, k) == (k < p)
    {
      BitsOfShifts(p, k);
    }
  }

  method Set8(bits: array<bv8>, pos: nat)
    requires pos / 8 + 1 < bits.Length
    requires ClearFrom(bits[..], pos)
    modifies bits
    ensures RunSet(old(bits[..]), bits[..], pos, 8)
  {
    var a := OnesFrom(pos % 8);
    var z := !a;
    bits[pos / 8] := bits[pos / 8] | a;
    bits[pos / 8 + 1] := z;
    forall i: nat | i / 8 < bits.Length
      ensures Bit(bits[..], i) == (old(Bit(bits[..], i)) || pos <= i < pos + 8)
    {
      BlockBit(old(bits[..]), bits[..], pos, 1, a, z, i);
    }
  }

  method Set16(bits: array<bv8>, pos: nat)
    requires pos / 8 + 2 < bits.Length
    requires ClearFrom(bits[..], pos)
    modifies bits
    ensures RunSet(old(bits[..]), bits[..], pos, 16)
  {
    var a := OnesFrom(pos % 8);
    var z := !a;
    bits[pos / 8] := bits[pos / 8] | a;
    bits[pos / 8 + 1] := 0xFF;
    bits[pos / 8 + 2] := z;
    forall i: nat | i / 8 < bits.Length
      ensures Bit(bits[..], i) == (old(Bit(bits[..], i)) || pos <= i < pos + 16)
    {
      BlockBit(old(bits[..]), bits[..], pos, 2, a, z, i);
    }
  }

  /** A run of 8n bits from pos: the first byte is or-ed, bytes in between are all ones, the last one is overwritten. */
  lemma BlockBit(before: seq<bv8>, after: seq<bv8>, pos: nat, n: nat, a: bv8, z: bv8, i: nat)
    requires 1 <= n && i / 8 < |before| == |after| && pos / 8 + n < |before|
    requires ClearFrom(before, pos)
    requires forall k: nat | k < 8 :: BitAt(a, k) == (pos % 8 <= k)
    requires forall k: nat | k < 8 :: BitAt(z, k) == (k < pos % 8)
    requires after[pos / 8] == before[pos / 8] | a
    requires after[pos / 8 + n] == z
    requires pos / 8 < i / 8 < pos / 8 + n ==> after[i / 8] == 0xFF
    requires i / 8 < pos / 8 || pos / 8 + n < i / 8 ==> after[i / 8] == before[i / 8]
    ensures Bit(after, i) == (Bit(before, i) || pos <= i < pos + 8 * n)
  {
    var b, p, j, k := pos / 8, pos % 8, i / 8, i % 8;
    assert pos == 8 * b + p && i == 8 * j + k;
    if j == b {
      BitOfOr(before[b], a, k);
    } else if b < j <= b + n {
      ClearByte(before, pos, j, k);
      AllOnes(k);
    }
  }

  lemma AllOnes(k: nat)
    requires k < 8
    ensures BitAt(0xFF, k)
  {
    if k == 0 {} else if k == 1 {} else if k == 2 {} else if k == 3 {}
    else if k == 4 {} else if k == 5 {} else if k == 6 {} else {}
  }

  /** bits marks exactly the PUSH arguments of code. */
  ghost predicate MarksPushData(code: Code, bits: seq<bv8>) {
    |bits| == |code| / 8 + 5 &&
    forall i: nat | i < |code| :: Bit(bits, i) <==> IsPushData(code, i)
  }

  /** The bits below pc mark the PUSH arguments; those from pc on are clear. */
  ghost predicate ScannedTo(code: Code, bits: seq<bv8>, pc: nat) {
    |bits| == |code| / 8 + 5 && ClearFrom(bits, pc) &&
    forall i: nat | i < pc && i < |code| :: Bit(bits, i) <==> IsPushData(code, i)
  }

  lemma RunSetAppend(a: seq<bv8>, b: seq<bv8>, c: seq<bv8>, pos: nat, n: nat, m: nat)
    requires RunSet(a, b, pos, n) && RunSet(b, c, pos + n, m) && ClearFrom(a, pos)
    ensures RunSet(a, c, pos, n + m) && ClearFrom(c, pos + n + m)
  {
    forall i: nat | i / 8 < |a|
      ensures Bit(c, i) == (Bit(a, i) || pos <= i < pos + n + m)
    {
      assert Bit(c, i) == (Bit(b, i) || pos + n <= i < pos + n + m);
      assert Bit(b, i) == (Bit(a, i) || pos <= i < pos + n);
    }
  }

  /** Marking the argument of the instruction at p advances the scanned prefix past that instruction. */
  lemma ScannedInstruction(code: Code, a: seq<bv8>, b: seq<bv8>, p: nat)
    requires p < |code| && IsBoundary(code, p) && ScannedTo(code, a, p)
    requires RunSet(a, b, p + 1, InstructionLength(code[p]) - 1)
    ensures ScannedTo(code, b, p + InstructionLength(code[p]))
    ensures IsBoundary(code, p + InstructionLength(code[p]))
  {
    var next := p + InstructionLength(code[p]);
    ScansExtends(code, 0, p);
    forall i: nat | i < next && i < |code|
      ensures Bit(b, i) <==> IsPushData(code, i)
    {
      assert Bit(b, i) == (Bit(a, i) || p + 1 <= i < next);
      if i == p {
        BoundaryOrPushData(code, p);
      } else if p < i {
        assert IsArgumentOf(code, p, i);
      }
    }
  }

  /** codeBitmapInternal: in place, the PUSH arguments of code become the set bits of an all-zero vector. */
  method CodeBitmapInternal(code: Code, bits: array<bv8>)
    requires bits.Length == |code| / 8 + 5
    requires forall b | 0 <= b < bits.Length :: bits[b] == 0
    modifies bits
    ensures MarksPushData(code, bits[..])
  {
    var pc: nat := 0;
    while pc < |code|
      invariant IsBoundary(code, pc) && ScannedTo(code, bits[..], pc)
    {
      var op := code[pc];
      ghost var at, before := pc, bits[..];
      pc := pc + 1;
      if PUSH1 <= op <= PUSH32 {
        pc := MarkArgument(bits, op - PUSH1 + 1, pc);
      }
      ScannedInstruction(code, before, bits[..], at);
    }
  }

  /** The switch of codeBitmapInternal: a run of numbits bits as blocks of 16, of 8 and a rest. */
  method MarkArgument(bits: array<bv8>, numbits: nat, start: nat) returns (pc: nat)
    requires 1 <= numbits <= 32
    requires start / 8 + 5 <= bits.Length
    requires ClearFrom(bits[..], start)
    modifies bits
    ensures pc == start + numbits
    ensures RunSet(old(bits[..]), bits[..], start, numbits)
  {
    pc := start;
    var rest := numbits;
    while rest >= 16
      invariant pc + rest == start + numbits
      invariant RunSet(old(bits[..]), bits[..], start, pc - start) && ClearFrom(bits[..], pc)
    {
      ghost var before := bits[..];
      Set16(bits, pc);
      RunSetAppend(old(bits[..]), before, bits[..], start, pc - start, 16);
      pc, rest := pc + 16, rest - 16;
    }
    while rest >= 8
      invariant rest < 16 && pc + rest == start + numbits
      invariant RunSet(old(bits[..]), bits[..], start, pc - start) && ClearFrom(bits[..], pc)
    {
      ghost var before := bits[..];
      Set8(bits, pc);
      RunSetAppend(old(bits[..]), before, bits[..], start, pc - start, 8);
      pc, rest := pc + 8, rest - 8;
    }
    ghost var before := bits[..];
    if rest == 1 {
      Set1(bits, pc);
    } else if rest != 0 {
      SetN(bits, rest, pc);
    }
    RunSetAppend(old(bits[..]), before, bits[..], start, pc - start, rest);
    pc := pc + rest;
  }

  /** codeBitmap: the analysis of a whole program. */
  method CodeBitmap(code: Code) returns (bits: seq<bv8>)
    ensures MarksPushData(code, bits)
  {
    var vector := new bv8[|code| / 8 + 1 + 4](_ => 0);
    CodeBitmapInternal(code, vector);
    bits := vector[..];
  }

  /** codeSegment: reads a position off the finished vector. */
  predicate CodeSegment(bits: seq<bv8>, pos: nat)
    requires pos / 8 < |bits|
  {
    (bits[pos / 8] >> (pos % 8)) & 1 == 0
  }

  lemma CodeSegmentIsBoundary(code: Code, bits: seq<bv8>, pos: nat)
    requires MarksPushData(code, bits) && pos < |code|
    ensures CodeSegment(bits, pos) <==> IsBoundary(code, pos)
  {
    BoundaryOrPushData(code, pos);
    assert Bit(bits, pos) == !CodeSegment(bits, pos) by {
      OneBit(bits[pos / 8], pos % 8);
    }
  }

  lemma OneBit(b: bv8, k: nat)
    requires k < 8
    ensures (b >> k) & 1 == 1 || (b >> k) & 1 == 0
  {
    if k == 0 {} else if k == 1 {} else if k == 2 {} else if k == 3 {}
    else if k == 4 {} else if k == 5 {} else if k == 6 {} else {}
  }
}
