/** The C++ integer operators, which truncate towards zero; Dafny's own round towards minus infinity. */
module CMath {

  function TruncDiv(a: int, b: int): int
    requires b > 0
  {
    if a >= 0 then a / b else -((-a) / b)
  }

  function TruncRem(a: int, b: int): int
    requires b > 0
  {
    a - TruncDiv(a, b) * b
  }

  function Max(a: int, b: int): int {
    if a >= b then a else b
  }
}
