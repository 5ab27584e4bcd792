/** Sizes and offsets of the 64-bit RISC-V configuration (sel4_common/src/sel4_config.rs), each in one place. */
module Config {
  const WORD_BITS := 64

  // sizes of objects, as powers of two
  const SLOT_BITS := 5
  const SLOT_SIZE := 32
  const ENDPOINT_BITS := 4
  const NOTIFICATION_BITS := 4
  const MIN_UNTYPED_BITS := 4
  const MAX_UNTYPED_BITS := 38
  const PAGE_BITS := 12
  const PAGE_TABLE_BITS := 12
  const ASID_POOL_BITS := 12

  // a TCB block: a small CNode in front of the tcb_t
  const TCB_BITS := 10
  const TCB_SIZE := 1024
  const TCB_OFFSET := 512
  const TCB_CNODE_ENTRIES := 5
  const TCB_REPLY_INDEX := 2
  const CALLER_INDEX := 3
}
