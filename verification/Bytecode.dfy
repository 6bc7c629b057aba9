/** The opcodes of src/compiler/bytecode.h that the model runs, and their operand sizes. */
module Bytecode {
  import opened Bytes

  const PUSH_CONST: byte := 0x01
  const PUSH_INT: byte := 0x02
  const POP: byte := 0x03
  const DUP: byte := 0x04

  const GET_VAR: byte := 0x10
  const SET_VAR: byte := 0x11
  const EXPORT: byte := 0x15
  const PUSH_SCOPE: byte := 0x16
  const POP_SCOPE: byte := 0x17
  const GET_SPECIAL: byte := 0x18
  const GET_LOCAL: byte := 0x19
  const SET_LOCAL: byte := 0x1A

  const CONCAT: byte := 0x20
  const SPLIT_FIELDS: byte := 0x23
  const GLOB: byte := 0x24
  const EXPAND_TILDE: byte := 0x26
  const COLLECT_WORDS: byte := 0x27
  const EXPAND_ARGS: byte := 0x28

  const JMP: byte := 0x30
  const JMP_TRUE: byte := 0x31
  const JMP_FALSE: byte := 0x32
  const JMP_NONE: byte := 0x33
  const RET: byte := 0x34
  const GET_NEXT_ITER: byte := 0x39
  const INIT_ITER: byte := 0x3A

  const EXEC_SIMPLE: byte := 0x40
  const EXEC_BUILTIN: byte := 0x41
  const EXEC_FUNC: byte := 0x42

  const REDIR_SAVE: byte := 0x50
  const REDIR_RESTORE: byte := 0x51
  const REDIR_OPEN: byte := 0x52
  const REDIR_DUP: byte := 0x53
  const REDIR_CLOSE: byte := 0x54
  const REDIR_HERE: byte := 0x55

  const TEST_UNARY: byte := 0x60
  const TEST_BINARY: byte := 0x61
  const NEGATE_STATUS: byte := 0x62
  const PATTERN_MATCH: byte := 0x63

  const ERREXIT_PUSH: byte := 0x80
  const ERREXIT_POP: byte := 0x81
  const STATUS_ZERO: byte := 0x82
  const HALT: byte := 0xFF

  /** opcode_operand_size, restricted to the opcodes above. */
  function OperandSize(op: byte): (n: nat)
    ensures n <= 4
  {
    if op == PUSH_CONST || op == GET_VAR || op == SET_VAR || op == GET_LOCAL || op == SET_LOCAL || op == EXPORT
       || op == CONCAT || op == EXEC_BUILTIN || op == EXEC_FUNC || op == INIT_ITER
       || op == REDIR_OPEN || op == REDIR_DUP || op == REDIR_HERE then 2
    else if op == PUSH_INT || op == JMP || op == JMP_TRUE || op == JMP_FALSE || op == JMP_NONE then 4
    else if op == PUSH_SCOPE || op == GET_SPECIAL || op == EXEC_SIMPLE
            || op == REDIR_CLOSE || op == TEST_UNARY || op == TEST_BINARY then 1
    else 0
  }
}
