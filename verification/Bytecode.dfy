/** The opcodes of listcerts/asn1_ber_bytecode.h and their lengths (`asn1_op_lengths`). */
module Bytecode {
  const MATCH := 0x00
  const MATCH_JUMP := 0x04
  const MATCH_ANY := 0x08
  const OP_MATCHES_TAG := 0x1a
  const COND_FAIL := 0x1b
  const COMPLETE := 0x1c
  const ACT := 0x1d
  const RETURN := 0x1e
  const END_SEQ := 0x20
  const END_SEQ_OF := 0x22
  const END_SET_OF := 0x23
  const OP_NR := 0x28

  // Bits of a tag-matching op.
  predicate HasSkip(op: int) { op % 2 == 1 }
  predicate HasAct(op: int) { op / 2 % 2 == 1 }
  predicate HasAny(op: int) { op / 8 % 2 == 1 }
  predicate HasCond(op: int) { op / 16 % 2 == 1 }

  // Bits of an END op.
  predicate EndsOf(op: int) { op / 2 % 2 == 1 }
  predicate EndsWithAct(op: int) { op / 4 % 2 == 1 }

  /** The tag-matching ops that carry an operand tag and no jump. */
  predicate IsPlainMatch(op: int) {
    op in {0x00, 0x01, 0x02, 0x03, 0x11, 0x13}
  }

  predicate IsJumpMatch(op: int) {
    op in {0x04, 0x05, 0x15}
  }

  predicate IsAnyMatch(op: int) {
    op in {0x08, 0x0a, 0x18, 0x1a}
  }

  predicate IsEnd(op: int) {
    0x20 <= op < 0x28
  }

  /** Entries an op takes, operands included. The C table is zero at codes that are no op. */
  function OpLength(op: int): nat {
    if op in {0x00, 0x01, 0x11} then 2
    else if op in {0x02, 0x03, 0x13} then 3
    else if IsJumpMatch(op) then 3
    else if op in {0x08, 0x18} then 1
    else if op in {0x0a, 0x1a} then 2
    else if op in {COND_FAIL, COMPLETE, RETURN, 0x20, 0x21} then 1
    else if op in {ACT, 0x22, 0x23, 0x24, 0x25} then 2
    else if op in {0x26, 0x27} then 3
    else 0
  }
}
