// The bitmap of required fields of pb_decode_noinit.

module PbRequired {
  import opened PbMessage
  import opened PbIter
  import opened PbDecoding

  const WORD_BITS := 32

  // allbits >> (32 - n): the n low bits of a word.
  function LowBits(n: nat): (w: seq<bool>)
    ensures |w| == WORD_BITS && forall k :: 0 <= k < WORD_BITS ==> w[k] == (k < n)
  {
    seq(WORD_BITS, k => k < n)
  }

  // A uint32_t as its bits, least significant first.
  type Word = w: seq<bool> | |w| == WORD_BITS witness LowBits(0)

  predicate Bit(words: seq<Word>, k: nat)
    requires k < WORD_BITS * |words|
  {
    words[k / WORD_BITS][k % WORD_BITS]
  }

  // words |= 1 << k
  function SetBit(words: seq<Word>, k: nat): (r: seq<Word>)
    requires k < WORD_BITS * |words|
    ensures |r| == |words| && forall j: nat :: j < WORD_BITS * |words| ==> Bit(r, j) == (j == k || Bit(words, j))
  {
    var w := words[k / WORD_BITS];
    words[k / WORD_BITS := w[k % WORD_BITS := true]]
  }

  // The k-th required field is field i.
  ghost predicate IsRequired(fields: seq<Field>, i: nat, k: nat) {
    i < |fields| && fields[i].rule.Required? && RequiredBefore(fields, i) == k
  }

  lemma {:induction false} RequiredGrows(fields: seq<Field>, i: nat, j: nat)
    requires i <= j <= |fields|
    ensures RequiredBefore(fields, i) <= RequiredBefore(fields, j)
  {
    if i < j {
      RequiredGrows(fields, i, j - 1);
    }
  }

  lemma RequiredIsUnique(fields: seq<Field>, i: nat, j: nat, k: nat)
    requires IsRequired(fields, i, k) && IsRequired(fields, j, k)
    ensures i == j
  {
    if i < j {
      RequiredGrows(fields, i + 1, j);
    } else if j < i {
      RequiredGrows(fields, j + 1, i);
    }
  }

  lemma {:induction false} RequiredExists(fields: seq<Field>, n: nat, k: nat) returns (i: nat)
    requires n <= |fields| && k < RequiredBefore(fields, n)
    ensures i < n && IsRequired(fields, i, k)
  {
    if k < RequiredBefore(fields, n - 1) {
      i := RequiredExists(fields, n - 1, k);
    } else {
      i := n - 1;
    }
  }

  // Bit k is set exactly when the k-th required field was seen.
  ghost predicate Marks(fields: seq<Field>, words: seq<Word>, seen: set<nat>) {
    && |words| * WORD_BITS == MAX_REQUIRED_FIELDS
    && (forall k: nat, i: nat :: k < MAX_REQUIRED_FIELDS && IsRequired(fields, i, k) ==> (Bit(words, k) <==> i in seen))
    && (forall k: nat :: RequiredBefore(fields, |fields|) <= k < MAX_REQUIRED_FIELDS ==> !Bit(words, k))
  }

  lemma MarkField(fields: seq<Field>, words: seq<Word>, seen: set<nat>, i: nat)
    requires i < |fields| && Marks(fields, words, seen)
    ensures Marks(fields,
      if fields[i].rule.Required? && RequiredBefore(fields, i) < MAX_REQUIRED_FIELDS then SetBit(words, RequiredBefore(fields, i))
      else words, seen + {i})
  {
    var n := RequiredBefore(fields, i);
    if fields[i].rule.Required? && n < MAX_REQUIRED_FIELDS {
      RequiredGrows(fields, i + 1, |fields|);
      forall k: nat, j: nat | k < MAX_REQUIRED_FIELDS && IsRequired(fields, j, k)
        ensures k == n <==> j == i
      {
        if k == n {
          RequiredIsUnique(fields, i, j, k);
        }
      }
    }
  }

  function Min(a: nat, b: nat): nat {
    if a < b then a else b
  }

  lemma MarksMeanSeen(fields: seq<Field>, words: seq<Word>, seen: set<nat>)
    requires Marks(fields, words, seen)
    ensures RequiredSeen(fields, seen) <==>
      forall k: nat :: k < Min(RequiredBefore(fields, |fields|), MAX_REQUIRED_FIELDS) ==> Bit(words, k)
  {
    var count := Min(RequiredBefore(fields, |fields|), MAX_REQUIRED_FIELDS);
    if RequiredSeen(fields, seen) {
      forall k: nat | k < count ensures Bit(words, k) {
        var i := RequiredExists(fields, |fields|, k);
      }
    }
    if forall k: nat :: k < count ==> Bit(words, k) {
      forall i: nat | i < |fields| && fields[i].rule.Required? && RequiredBefore(fields, i) < MAX_REQUIRED_FIELDS
        ensures i in seen
      {
        RequiredGrows(fields, i + 1, |fields|);
        assert IsRequired(fields, i, RequiredBefore(fields, i));
      }
    }
  }

  // The number of required fields, from wherever the iterator stands.
  method CountRequired(iter: FieldIter) returns (count: nat)
    requires iter.Valid()
    modifies iter
    ensures iter.Valid() && count == RequiredBefore(iter.start, |iter.start|)
  {
    var lastRequired, more := false, true;
    count := 0;
    while more
      invariant iter.Valid()
      invariant !more ==> iter.pos == 0 && lastRequired == (iter.start == [] || iter.start[|iter.start| - 1].rule.Required?)
      invariant !more ==> count == if iter.start == [] then 0 else RequiredBefore(iter.start, |iter.start| - 1)
      decreases more, |iter.start| - iter.pos
    {
      count := iter.requiredFieldIndex;
      lastRequired := iter.pos == |iter.start| || iter.start[iter.pos].rule.Required?;
      more := iter.Next();
    }
    if lastRequired && iter.pos < |iter.start| {
      count := count + 1;
    }
  }

  // The tests of whole words and of the remaining bits together.
  method AllSeen(words: seq<Word>, count: nat) returns (ok: bool)
    requires |words| == 2 && count <= MAX_REQUIRED_FIELDS
    requires forall k: nat :: count <= k < MAX_REQUIRED_FIELDS ==> !Bit(words, k)
    ensures ok <==> forall k: nat :: k < count ==> Bit(words, k)
  {
    for i := 0 to count / WORD_BITS
      invariant forall k: nat :: k < WORD_BITS * i ==> Bit(words, k)
    {
      if words[i] != LowBits(WORD_BITS) {
        ghost var k :| 0 <= k < WORD_BITS && !words[i][k];
        assert !Bit(words, WORD_BITS * i + k);
        return false;
      }
    }
    if count % WORD_BITS != 0 {
      var i := count / WORD_BITS;
      if words[i] != LowBits(count % WORD_BITS) {
        ghost var k :| 0 <= k < WORD_BITS && words[i][k] != (k < count % WORD_BITS);
        assert Bit(words, WORD_BITS * i + k) == words[i][k];
        return false;
      }
      assert forall k: nat :: WORD_BITS * i <= k < count ==> Bit(words, k);
    }
    ok := true;
  }
}
