/** The integers and the clock of the machines the programs run on. */
module Machine {

  predicate IsInt32(n: int) {
    -0x8000_0000 <= n < 0x8000_0000
  }

  /** Times are in microseconds. */
  const SECOND := 1000000
}
