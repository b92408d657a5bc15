/** The protocol constants of params/protocol_params.go that the model uses. */
module Params {
  import opened Words

  const CALL_VALUE_TRANSFER_GAS: uint64 := 9000
  const CALL_NEW_ACCOUNT_GAS: uint64 := 25000
  const CALL_STIPEND: uint64 := 2300
  const CALL_CREATE_DEPTH: nat := 1024
  const STACK_LIMIT: nat := 1024
  const MEMORY_GAS: uint64 := 3
  const QUAD_COEFF_DIV: uint64 := 512
  const COPY_GAS: uint64 := 3
  const KECCAK256_GAS: uint64 := 30
  const KECCAK256_WORD_GAS: uint64 := 6
  const INIT_CODE_WORD_GAS: uint64 := 2
  const LOG_GAS: uint64 := 375
  const LOG_TOPIC_GAS: uint64 := 375
  const LOG_DATA_GAS: uint64 := 8
  const EXP_GAS: uint64 := 10
  const EXP_BYTE_EIP158: uint64 := 50
  const JUMPDEST_GAS: uint64 := 1
  const CREATE_GAS: uint64 := 32000
  const CREATE2_GAS: uint64 := 32000
  const CREATE_DATA_GAS: uint64 := 200
  const MAX_CODE_SIZE: nat := 24576
  const SELFDESTRUCT_GAS_EIP150: uint64 := 5000
  const CREATE_BY_SELFDESTRUCT_GAS: uint64 := 25000
  const COLD_ACCOUNT_ACCESS_COST: uint64 := 2600
  const COLD_SLOAD_COST: uint64 := 2100
  const WARM_STORAGE_READ_COST: uint64 := 100

  const NET_SSTORE_NOOP_GAS: uint64 := 200
  const NET_SSTORE_INIT_GAS: uint64 := 20000
  const NET_SSTORE_CLEAN_GAS: uint64 := 5000
  const NET_SSTORE_DIRTY_GAS: uint64 := 200
  const NET_SSTORE_CLEAR_REFUND: uint64 := 15000
  const NET_SSTORE_RESET_REFUND: uint64 := 4800
  const NET_SSTORE_RESET_CLEAR_REFUND: uint64 := 19800
  const SSTORE_SENTRY_GAS: uint64 := 2300
  const SSTORE_SET_GAS: uint64 := 20000
  const SSTORE_RESET_GAS: uint64 := 5000
  const SLOAD_GAS_EIP2200: uint64 := 800
  const SSTORE_CLEARS_REFUND_EIP2200: uint64 := 15000
  const TX_ACCESS_LIST_STORAGE_KEY_GAS: uint64 := 1900
  const SSTORE_CLEARS_REFUND_EIP3529: uint64 := SSTORE_RESET_GAS - COLD_SLOAD_COST + TX_ACCESS_LIST_STORAGE_KEY_GAS
}
