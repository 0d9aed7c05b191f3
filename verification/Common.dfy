/** What several components share. */
module Options {
  datatype Option<T> = None | Some(value: T)
}

module Bytes {
  type Byte = b: int | 0 <= b < 256
}

/** Operators and 64-bit integers, the same in the syntax tree and in the HIR
    (include/vnt/operators.h). */
module Operators {
  const INT64_MIN: int := -0x8000_0000_0000_0000
  const INT64_MAX: int := 0x7FFF_FFFF_FFFF_FFFF

  predicate Fits(i: int) {
    INT64_MIN <= i <= INT64_MAX
  }

  type int64 = i: int | INT64_MIN <= i <= INT64_MAX witness 0

  datatype BinaryOp =
    | Add | Subtract | Multiply | Divide | Modulo
    | Equal | NotEqual | Greater | Less | GreaterEqual | LessEqual
    | And | Or

  datatype UnaryOp = Not | Negate | Reference | Dereference
}
