/** The floating-point operations both float evaluator families apply. Their
    numeric results (rounding, NaN, infinities) are not modelled: each one
    is an uninterpreted function of the operand type, supplied by the
    caller, so only the stack shape of an evaluation is checked. */
module FloatArith {

  datatype Arith<!T> = Arith(
    add: (T, T) -> T,
    sub: (T, T) -> T,
    mul: (T, T) -> T,
    div: (T, T) -> T,
    rem: (T, T) -> T,
    powf: (T, T) -> T,
    neg: T -> T,
    sqrt: T -> T,
    log2: T -> T,
    exp: T -> T,
    round: T -> T,
    zero: T,
    one: T)
}
