// Single operations on unsigned 64-bit words. The shift by a constant is
// named, so that proofs about bits need not look into it.

module Words64 {
  const TOP: bv64 := 0x8000_0000_0000_0000

  function And(a: bv64, b: bv64): bv64 {
    a & b
  }

  function Or(a: bv64, b: bv64): bv64 {
    a | b
  }

  function Double(w: bv64): bv64 {
    w << 1
  }

  lemma AndFacts(a: bv64, b: bv64)
    ensures And(a, b) == And(b, a) && And(0, a) == 0
  {}

  lemma OrOutside(w: bv64, m: bv64, at: bv64)
    requires And(m, at) == 0
    ensures And(Or(w, m), at) == And(w, at)
  {}

  lemma OrInside(w: bv64, m: bv64)
    ensures And(Or(w, m), m) == m
  {}

  lemma AndDoubles(a: bv64, b: bv64)
    ensures And(Double(a), Double(b)) == Double(And(a, b))
  {}

  lemma DoubleIsEven(w: bv64)
    ensures And(1, Double(w)) == 0
  {}

  lemma DoubleZero()
    ensures Double(0) == 0
  {}

  // Without the top bit nothing is lost.
  lemma NothingLost(w: bv64)
    requires And(w, TOP) == 0 && w != 0
    ensures Double(w) != 0
  {}

  lemma AndKeepsClear(w: bv64, m: bv64)
    requires And(m, TOP) == 0
    ensures And(And(w, m), TOP) == 0
  {}

  lemma SevenDoubles(w: bv64)
    ensures Double(Double(Double(Double(Double(Double(Double(w))))))) == w << 7
  {}
}
