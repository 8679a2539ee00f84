// The sliding replay window of section 4.1.2.6 of RFC 6347
// (dtls1_bitmap_should_discard and dtls1_bitmap_record).

module DtlsReplay {
  import opened Words64

  const WINDOW_SIZE := 64

  // An unsigned 64-bit word as its bits, least significant first.
  type Word = w: seq<bool> | |w| == WINDOW_SIZE witness Zero(WINDOW_SIZE)

  function Zero(n: nat): (s: seq<bool>)
    ensures |s| == n && forall i :: 0 <= i < n ==> !s[i]
  {
    seq(n, _ => false)
  }

  const ZERO: Word := Zero(WINDOW_SIZE)

  // w << n: the top n bits fall off, n zeros come in below.
  function ShiftLeft(w: Word, n: nat): Word
    requires n < WINDOW_SIZE
  {
    Zero(n) + w[..WINDOW_SIZE - n]
  }

  // DTLS1_BITMAP; maxSeq is an unsigned 64-bit integer.
  datatype Window = Window(bits: Word, maxSeq: nat)

  const EMPTY := Window(ZERO, 0)

  predicate ShouldDiscard(w: Window, s: nat) {
    s <= w.maxSeq && (w.maxSeq - s >= WINDOW_SIZE || w.bits[w.maxSeq - s])
  }

  function Slide(w: Window, s: nat): (r: Window)
    ensures s <= r.maxSeq
  {
    if s <= w.maxSeq then w
    else if s - w.maxSeq >= WINDOW_SIZE then Window(ZERO, s)
    else Window(ShiftLeft(w.bits, s - w.maxSeq), s)
  }

  function Record(w: Window, s: nat): Window {
    var slid := Slide(w, s);
    if slid.maxSeq - s < WINDOW_SIZE then slid.(bits := slid.bits[slid.maxSeq - s := true]) else slid
  }

  // What the bitmap means: bit k is set exactly when maxSeq - k was recorded,
  // and nothing above maxSeq was.
  ghost predicate Represents(w: Window, seen: set<nat>) {
    && (forall s :: s in seen ==> s <= w.maxSeq)
    && (forall k: nat :: k < WINDOW_SIZE ==> (w.bits[k] <==> w.maxSeq - k in seen))
  }

  // The window discards exactly what it saw and what is too old to tell.
  lemma DiscardIsExact(w: Window, seen: set<nat>, s: nat)
    requires Represents(w, seen)
    ensures ShouldDiscard(w, s) <==> s in seen || s + WINDOW_SIZE <= w.maxSeq
  {
    if s <= w.maxSeq < s + WINDOW_SIZE {
      assert w.bits[w.maxSeq - s] <==> w.maxSeq - (w.maxSeq - s) in seen;
    }
  }

  lemma RecordRepresents(w: Window, seen: set<nat>, s: nat)
    requires Represents(w, seen)
    ensures Represents(Record(w, s), seen + {s})
  {
    var r := Record(w, s);
    forall k: nat | k < WINDOW_SIZE ensures r.bits[k] <==> r.maxSeq - k in seen + {s} {
      if w.maxSeq < s < w.maxSeq + WINDOW_SIZE && k >= s - w.maxSeq {
        assert w.bits[k - (s - w.maxSeq)] <==> w.maxSeq - (k - (s - w.maxSeq)) in seen;
      }
    }
  }

  // ------------------------------------------------------------------
  // The window in an unsigned 64-bit word

  // w << n, one bit at a time.
  function Shifted(w: bv64, n: nat): bv64 {
    if n == 0 then w else Double(Shifted(w, n - 1))
  }

  // w & ((uint64_t)1 << k)
  predicate HasBit(w: bv64, k: nat) {
    And(w, Shifted(1, k)) != 0
  }

  function Bits(w: bv64): (bits: Word)
    ensures forall k: nat :: k < WINDOW_SIZE ==> bits[k] == HasBit(w, k)
  {
    seq(WINDOW_SIZE, k requires 0 <= k < WINDOW_SIZE => HasBit(w, k))
  }

  lemma SevenMore(w: bv64, n: nat)
    ensures Shifted(w, n + 7) == Shifted(w, n) << 7
  {
    SevenSteps(w, n);
    hide *;
    SevenDoubles(Shifted(w, n));
  }

  lemma SevenSteps(w: bv64, n: nat)
    ensures Shifted(w, n + 7) == Double(Double(Double(Double(Double(Double(Double(Shifted(w, n))))))))
  {
    hide Double;
    assert Shifted(w, n + 2) == Double(Double(Shifted(w, n)));
    assert Shifted(w, n + 4) == Double(Double(Shifted(w, n + 2)));
    assert Shifted(w, n + 6) == Double(Double(Shifted(w, n + 4)));
  }

  lemma LastMask()
    ensures Shifted(1, WINDOW_SIZE - 1) == TOP
  {
    assert Shifted(1, 0) == 1;
    hide Shifted;
    SevenMore(1, 0);
    SevenMore(1, 7);
    SevenMore(1, 14);
    SevenMore(1, 21);
    SevenMore(1, 28);
    SevenMore(1, 35);
    SevenMore(1, 42);
    SevenMore(1, 49);
    SevenMore(1, 56);
  }

  lemma {:induction false} MasksDisjoint(i: nat, k: nat)
    requires i < k
    ensures And(Shifted(1, i), Shifted(1, k)) == 0
    decreases i
  {
    hide Double, And;
    var b := Shifted(1, k - 1);
    if i == 0 {
      DoubleIsEven(b);
    } else {
      AndDoubles(Shifted(1, i - 1), b);
      MasksDisjoint(i - 1, k - 1);
      DoubleZero();
    }
  }

  lemma {:induction false} ZeroStays(w: bv64, n: nat, m: nat)
    requires n <= m && Shifted(w, n) == 0
    ensures Shifted(w, m) == 0
    decreases m
  {
    hide Double;
    if n < m {
      ZeroStays(w, n, m - 1);
      DoubleZero();
    }
  }

  lemma MaskIsBit(k: nat)
    requires k < WINDOW_SIZE
    ensures Shifted(1, k) != 0 && (k < WINDOW_SIZE - 1 ==> And(Shifted(1, k), TOP) == 0)
  {
    hide Shifted, And;
    LastMask();
    if Shifted(1, k) == 0 {
      ZeroStays(1, k, WINDOW_SIZE - 1);
    }
    if k < WINDOW_SIZE - 1 {
      MasksDisjoint(k, WINDOW_SIZE - 1);
    }
  }

  lemma OneShift(w: bv64, k: nat)
    requires k < WINDOW_SIZE
    ensures HasBit(Double(w), k) <==> k > 0 && HasBit(w, k - 1)
  {
    hide Double, And;
    if k == 0 {
      DoubleIsEven(w);
      AndFacts(1, Double(w));
    } else {
      var m := Shifted(1, k - 1);
      MaskIsBit(k - 1);
      AndDoubles(w, m);
      AndKeepsClear(w, m);
      DoubleZero();
      if And(w, m) != 0 {
        NothingLost(And(w, m));
      }
    }
  }

  lemma {:induction false} ShiftMovesBits(w: bv64, n: nat, k: nat)
    requires k < WINDOW_SIZE
    ensures HasBit(Shifted(w, n), k) <==> k >= n && HasBit(w, k - n)
    decreases n
  {
    hide Double, HasBit;
    if n > 0 {
      OneShift(Shifted(w, n - 1), k);
      if k > 0 {
        ShiftMovesBits(w, n - 1, k - 1);
      }
    }
  }

  lemma OrAddsBit(w: bv64, i: nat, k: nat)
    requires i < WINDOW_SIZE && k < WINDOW_SIZE
    ensures HasBit(Or(w, Shifted(1, i)), k) <==> k == i || HasBit(w, k)
  {
    hide Shifted, And, Or;
    MaskIsBit(k);
    var m, at := Shifted(1, i), Shifted(1, k);
    if i == k {
      OrInside(w, m);
    } else {
      AndFacts(m, at);
      MasksDisjoint(if i < k then i else k, if i < k then k else i);
      OrOutside(w, m, at);
    }
  }

  // So the operations on the word are those on its bits.
  lemma BitsShifted(w: bv64, n: nat)
    requires n < WINDOW_SIZE
    ensures Bits(Shifted(w, n)) == ShiftLeft(Bits(w), n)
  {
    hide Shifted, HasBit;
    forall k: nat | k < WINDOW_SIZE ensures Bits(Shifted(w, n))[k] == ShiftLeft(Bits(w), n)[k] {
      ShiftMovesBits(w, n, k);
    }
  }

  lemma BitsSet(w: bv64, i: nat)
    requires i < WINDOW_SIZE
    ensures Bits(Or(w, Shifted(1, i))) == Bits(w)[i := true]
  {
    hide Shifted, HasBit, Or;
    forall k: nat | k < WINDOW_SIZE ensures Bits(Or(w, Shifted(1, i)))[k] == Bits(w)[i := true][k] {
      OrAddsBit(w, i, k);
    }
  }

  lemma NoBits()
    ensures Bits(0) == ZERO
  {
    hide Shifted, And;
    forall k: nat | k < WINDOW_SIZE ensures !HasBit(0, k) {
      AndFacts(Shifted(1, k), 0);
    }
  }

  // DTLS1_BITMAP, updated in place.
  class Bitmap {
    var word: bv64
    var maxSeqNum: nat

    constructor ()
      ensures View() == EMPTY
    {
      word, maxSeqNum := 0, 0;
      NoBits();
    }

    ghost function View(): Window
      reads this
    {
      Window(Bits(word), maxSeqNum)
    }

    method Reset()
      modifies this
      ensures View() == EMPTY
    {
      word, maxSeqNum := 0, 0;
      NoBits();
    }

    method TestDiscard(seqNum: nat) returns (discard: bool)
      ensures discard == ShouldDiscard(View(), seqNum)
    {
      if seqNum > maxSeqNum {
        return false;
      }
      var idx := maxSeqNum - seqNum;
      if idx >= WINDOW_SIZE {
        return true;
      }
      hide HasBit;
      discard := HasBit(word, idx);
    }

    method Insert(seqNum: nat)
      modifies this
      ensures View() == Record(old(View()), seqNum)
    {
      hide Shifted, HasBit, Or;
      if seqNum > maxSeqNum {
        var shift := seqNum - maxSeqNum;
        if shift >= WINDOW_SIZE {
          word := 0;
          NoBits();
        } else {
          BitsShifted(word, shift);
          word := Shifted(word, shift);
        }
        maxSeqNum := seqNum;
      }
      var idx := maxSeqNum - seqNum;
      if idx < WINDOW_SIZE {
        BitsSet(word, idx);
        word := Or(word, Shifted(1, idx));
      }
    }

    // Bit k of the map is set exactly when the number k below the maximum was
    // recorded, if the window stands for the numbers recorded.
    lemma BitsMeanRecorded(seen: set<nat>, k: nat)
      requires Represents(View(), seen) && k < WINDOW_SIZE
      ensures HasBit(word, k) <==> maxSeqNum - k in seen
    {
      hide HasBit;
    }
  }
}
