/** Contracts and the JUMPDEST cache that a call tree shares (vm/ethvm/contract.go). */
module Contracts {
  import opened Words
  import opened Analysis

  const JUMPDEST: byte := 0x5b
  const STOP: byte := 0x00
  const NO_HASH: Hash := Hash(0)
  const MAX_INT: int := 0x7FFF_FFFF_FFFF_FFFF

  /** Contract.jumpdests: one map, reached from every contract of a call tree. */
  class JumpdestCache {
    var entries: map<Hash, seq<bv8>>
    // The only code a nonzero hash stands for in this call tree: equal code hashes mean equal code.
    ghost const preimage: Hash -> Code

    constructor (ghost preimage: Hash -> Code)
      ensures Valid() && entries == map[] && this.preimage == preimage
    {
      entries := map[];
      this.preimage := preimage;
    }

    /** Every stored analysis is the analysis of the code its key stands for. */
    ghost predicate Valid()
      reads this
    {
      forall h | h in entries :: MarksPushData(preimage(h), entries[h])
    }
  }

  /** What a Go ContractRef may be: an enclosing contract or a bare account. */
  datatype ContractRef = Parent(contract: Contract) | AccountRef(address: Address)

  class Contract {
    var callerAddress: Address
    const self: Address
    const jumpdests: JumpdestCache
    var analysis: Option<seq<bv8>>
    var code: Code
    var codeHash: Hash
    var input: seq<byte>
    var gas: uint64
    var value: nat

    /** NewContract: a contract called by another one shares that one's analyses. */
    constructor (caller: ContractRef, self: Address, value: nat, gas: uint64, ghost preimage: Hash -> Code)
      requires caller.Parent? ==> caller.contract.jumpdests.preimage == preimage && caller.contract.jumpdests.Valid()
      ensures Valid() && code == [] && codeHash == NO_HASH && analysis == None && input == []
      ensures this.self == self && this.value == value && this.gas == gas
      ensures callerAddress == if caller.Parent? then caller.contract.self else caller.address
      ensures caller.Parent? ==> jumpdests == caller.contract.jumpdests
      ensures caller.AccountRef? ==> fresh(jumpdests) && jumpdests.entries == map[]
      ensures jumpdests.preimage == preimage
    {
      if caller.Parent? {
        callerAddress := caller.contract.self;
        jumpdests := caller.contract.jumpdests;
      } else {
        callerAddress := caller.address;
        jumpdests := new JumpdestCache(preimage);
      }
      this.self, this.value, this.gas := self, value, gas;
      analysis, code, codeHash, input := None, [], NO_HASH, [];
    }

    ghost predicate Valid()
      reads this, jumpdests
    {
      && jumpdests.Valid()
      && |code| <= MAX_INT
      && (codeHash != NO_HASH ==> jumpdests.preimage(codeHash) == code)
      && (analysis.Some? ==> MarksPushData(code, analysis.value))
    }

    /** SetCallCode does not reset `analysis`; it is only ever called on a contract that has none. */
    method SetCallCode(hash: Hash, code: Code)
      requires jumpdests.Valid() && |code| <= MAX_INT
      requires hash != NO_HASH ==> jumpdests.preimage(hash) == code
      modifies this`code, this`codeHash
      ensures this.code == code && codeHash == hash
      ensures analysis == None ==> Valid()
    {
      this.code := code;
      codeHash := hash;
    }

    /** AsDelegate: run on behalf of the caller's caller, with the caller's value. */
    method AsDelegate(parent: Contract)
      modifies this`callerAddress, this`value
      ensures callerAddress == parent.callerAddress && value == parent.value
    {
      callerAddress := parent.callerAddress;
      value := parent.value;
    }

    /** GetOp: past its end a program consists of STOPs. */
    function GetOp(n: uint64): byte
      reads this
    {
      if n < |code| then code[n] else STOP
    }

    method UseGas(amount: uint64) returns (ok: bool)
      modifies this`gas
      ensures ok <==> amount <= old(gas)
      ensures gas == if ok then old(gas) - amount else old(gas)
    {
      if gas < amount {
        return false;
      }
      gas := gas - amount;
      return true;
    }

    /** isCode answers from the local analysis, the shared cache or a fresh analysis: the answer never depends on which. */
    method IsCode(udest: uint64) returns (isCode: bool)
      requires Valid() && udest < |code|
      modifies this`analysis, jumpdests`entries
      ensures Valid()
      ensures isCode <==> IsBoundary(code, udest)
      ensures analysis.Some?
      ensures forall h | h in old(jumpdests.entries) :: h in jumpdests.entries && jumpdests.entries[h] == old(jumpdests.entries[h])
    {
      if analysis.None? {
        if codeHash != NO_HASH {
          if codeHash !in jumpdests.entries {
            var bits := CodeBitmap(code);
            jumpdests.entries := jumpdests.entries[codeHash := bits];
          }
          analysis := Some(jumpdests.entries[codeHash]);
        } else {
          var bits := CodeBitmap(code);
          analysis := Some(bits);
        }
      }
      CodeSegmentIsBoundary(code, analysis.value, udest);
      isCode := CodeSegment(analysis.value, udest);
    }

    /** validJumpdest: exactly the valid destinations of Yellow Paper section 9.4.3. */
    method ValidJumpdest(dest: Word) returns (ok: bool)
      requires Valid()
      modifies this`analysis, jumpdests`entries
      ensures Valid()
      ensures ok <==> dest < |code| && code[dest] == JUMPDEST && IsBoundary(code, dest)
    {
      if dest > MAX_UINT64 || dest >= |code| {
        return false;
      }
      if code[dest] != JUMPDEST {
        return false;
      }
      ok := IsCode(dest);
    }
  }

  /** The assumption on hashes cannot be dropped: an analysis filed under a shared hash misjudges a different code. */
  lemma CollisionMisjudges(bits: seq<bv8>)
    requires MarksPushData([0x60, JUMPDEST], bits)
    ensures IsBoundary([STOP, JUMPDEST], 1) && !CodeSegment(bits, 1)
  {
    var pushed: Code := [0x60, JUMPDEST];
    var plain: Code := [STOP, JUMPDEST];
    assert Scans(plain, 1, 1);
    assert IsBoundary(pushed, 0);
    assert IsArgumentOf(pushed, 0, 1);
    BoundaryOrPushData(pushed, 1);
    CodeSegmentIsBoundary(pushed, bits, 1);
  }
}
