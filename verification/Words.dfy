/** Machine words of the virtual machine and the few arithmetic helpers of vm/ethvm/common.go. */
module Words {

  const TWO_64: int := 0x1_0000_0000_0000_0000
  const TWO_256: int := 0x1_0000_0000_0000_0000_0000_0000_0000_0000_0000_0000_0000_0000_0000_0000_0000_0000
  const MAX_UINT64: int := 0xFFFF_FFFF_FFFF_FFFF

  type byte = x: int | 0 <= x < 0x100
  /** A Go byte slice: its length is an int64. */
  type GoBytes = s: seq<byte> | |s| <= 0x7FFF_FFFF_FFFF_FFFF
  type uint64 = x: int | 0 <= x < 0x1_0000_0000_0000_0000
  /** A uint256 stack item or storage value. */
  type Word = x: int | 0 <= x < TWO_256

  /** Addition on uint64 as Go performs it: silently modulo 2^64. */
  function WrapAdd(x: uint64, y: uint64): (r: uint64)
    ensures x + y < TWO_64 ==> r == x + y
    ensures x + y >= TWO_64 ==> r == x + y - TWO_64
  {
    (x + y) % TWO_64
  }

  /** Subtraction on uint64 as Go performs it. */
  function WrapSub(x: uint64, y: uint64): (r: uint64)
    ensures y <= x ==> r == x - y
    ensures x < y ==> r == x - y + TWO_64
  {
    (x - y) % TWO_64
  }

  /** math.SafeAdd: None when the sum does not fit. */
  function SafeAdd(x: uint64, y: uint64): (r: Option<uint64>)
    ensures r.Some? <==> x + y <= MAX_UINT64
    ensures r.Some? ==> r.value == x + y
  {
    var sum := WrapAdd(x, y);
    if sum < x then None else Some(sum)
  }

  /** math.SafeMul: None when the product does not fit. */
  function SafeMul(x: uint64, y: uint64): (r: Option<uint64>)
    ensures r.Some? <==> x * y <= MAX_UINT64
    ensures r.Some? ==> r.value == x * y
  {
    if x * y < TWO_64 then Some(x * y) else None
  }

  function Max(x: int, y: int): int {
    if x < y then y else x
  }

  function Min(x: int, y: int): int {
    if x < y then x else y
  }

  /** A 20-byte account address. */
  datatype Address = Address(bits: Word)

  /** A 32-byte hash or storage key. */
  datatype Hash = Hash(bits: Word)

  /** Bytes20: the address that a stack item denotes. */
  function ToAddress(x: Word): Address {
    Address(x % 0x1_0000_0000_0000_0000_0000_0000_0000_0000_0000_0000)
  }

  datatype Option<+T> = None | Some(value: T)

  /** The errors of vm/ethvm/errors.go, one more for what a precompiled contract may report, and one for a panic, which ends all
      frames. */
  datatype Error =
    | OutOfGas
    | CodeStoreOutOfGas
    | Depth
    | InsufficientBalance
    | ContractAddressCollision
    | ExecutionReverted
    | MaxCodeSizeExceeded
    | InvalidJump
    | WriteProtection
    | ReturnDataOutOfBounds
    | GasUintOverflow
    | InvalidCode
    | NonceUintOverflow
    | ReentrancySentry
    | StackUnderflow
    | StackOverflow
    | InvalidOpCode
    | PrecompileFailed
    | Panicked
    | StopToken

  datatype Result<+T> = Success(value: T) | Failure(error: Error) {
    predicate IsFailure() {
      Failure?
    }

    function PropagateFailure<U>(): Result<U>
      requires Failure?
    {
      Failure(error)
    }

    function Extract(): T
      requires Success?
    {
      value
    }
  }
}
