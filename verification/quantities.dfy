/** The three can sizes every record of the backend carries
    (`cans25L`, `cans10L`, `cans1L`). */
module Quantities {

  datatype Cans = Cans(cans25L: int, cans10L: int, cans1L: int)

  /** The schema default of every count. */
  const Zero := Cans(0, 0, 0)

  function Add(a: Cans, b: Cans): Cans {
    Cans(a.cans25L + b.cans25L, a.cans10L + b.cans10L, a.cans1L + b.cans1L)
  }

  lemma AddZero(c: Cans)
    ensures Add(Zero, c) == c
  {
  }

  function Sub(a: Cans, b: Cans): Cans {
    Cans(a.cans25L - b.cans25L, a.cans10L - b.cans10L, a.cans1L - b.cans1L)
  }

  predicate NonNegative(c: Cans) {
    c.cans25L >= 0 && c.cans10L >= 0 && c.cans1L >= 0
  }

  /** Componentwise `a <= b`. */
  predicate Within(a: Cans, b: Cans) {
    a.cans25L <= b.cans25L && a.cans10L <= b.cans10L && a.cans1L <= b.cans1L
  }
}
