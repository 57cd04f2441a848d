/** The smaller and the larger of two numbers, shared by the components. */
module Numbers {

  function Min(a: int, b: int): int { if a < b then a else b }
  function Max(a: int, b: int): int { if a < b then b else a }

  /** The same for points in time. */
  function Sooner(a: real, b: real): real { if a < b then a else b }
  function Later(a: real, b: real): real { if a < b then b else a }
}
