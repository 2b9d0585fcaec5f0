/** Integer operators of the source that differ from Dafny's. */
module Numbers {

  /** Division truncated toward zero. */
  function TruncDiv(x: int, y: int): int
    requires y > 0
  {
    if x >= 0 then x / y else -(-x / y)
  }
}
