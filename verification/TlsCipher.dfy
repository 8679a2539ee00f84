// Choosing a cipher from two preference lists, one of which may have groups of
// equal preference (ssl3_choose_cipher).

module TlsCipher {
  import opened Bytes

  type Cipher = nat

  // in_group_flags: a set flag joins a cipher to the group of the next one.
  // Without flags every cipher is a group of its own.
  type Flags = Option<seq<bool>>

  // The last place of the group of place i; n, for a group that is still open
  // at the end of the list.
  function GroupEnd(flags: Flags, n: nat, i: nat): (end: nat)
    requires i <= n && (flags.Some? ==> |flags.value| == n)
    ensures i <= end <= n
    decreases n - i
  {
    if flags.Some? && i < n && flags.value[i] then GroupEnd(flags, n, i + 1) else i
  }

  // sk_SSL_CIPHER_find on a list that is not sorted.
  function Find(allow: seq<Cipher>, c: Cipher, i: nat): (r: Option<nat>)
    requires i <= |allow|
    ensures r.Some? ==> i <= r.value < |allow| && allow[r.value] == c && forall j :: i <= j < r.value ==> allow[j] != c
    ensures r.None? ==> forall j :: i <= j < |allow| ==> allow[j] != c
    decreases |allow| - i
  {
    if i == |allow| then None else if allow[i] == c then Some(i) else Find(allow, c, i + 1)
  }

  // Usable for the version and the keys at hand, and allowed by the other list.
  predicate Acceptable(usable: Cipher -> bool, allow: seq<Cipher>, c: Cipher) {
    usable(c) && Find(allow, c, 0).Some?
  }

  function Rank(allow: seq<Cipher>, c: Cipher): nat
    requires Find(allow, c, 0).Some?
  {
    Find(allow, c, 0).value
  }

  // Place i of the list is at least as good as place j: its group ends no
  // later, and within one group the other list likes it no less.
  predicate NoWorse(flags: Flags, prio: seq<Cipher>, allow: seq<Cipher>, i: nat, j: nat)
    requires i < |prio| && j < |prio| && (flags.Some? ==> |flags.value| == |prio|)
    requires Find(allow, prio[i], 0).Some? && Find(allow, prio[j], 0).Some?
  {
    var ei, ej := GroupEnd(flags, |prio|, i), GroupEnd(flags, |prio|, j);
    ei < ej || (ei == ej && Rank(allow, prio[i]) <= Rank(allow, prio[j]))
  }

  // Place i of the list is the best acceptable one.
  ghost predicate Best(usable: Cipher -> bool, flags: Flags, prio: seq<Cipher>, allow: seq<Cipher>, i: nat)
    requires i < |prio| && (flags.Some? ==> |flags.value| == |prio|)
  {
    && Acceptable(usable, allow, prio[i])
    && forall j :: 0 <= j < |prio| && Acceptable(usable, allow, prio[j]) ==> NoWorse(flags, prio, allow, i, j)
  }

  lemma {:induction false} EndOfRun(flags: Flags, n: nat, k: nat, i: nat)
    requires k <= i < n && flags.Some? && |flags.value| == n && GroupEnd(flags, n, k) >= i
    ensures GroupEnd(flags, n, k) == GroupEnd(flags, n, i)
    decreases i - k
  {
    if k < i {
      EndOfRun(flags, n, k + 1, i);
    }
  }

  // The result is a best acceptable cipher. There is none exactly when every
  // acceptable cipher is in a group that the list never closes, which cannot
  // be if the last flag is clear or there are no flags.
  method ChooseCipher(usable: Cipher -> bool, flags: Flags, prio: seq<Cipher>,
                      allow: seq<Cipher>) returns (r: Option<Cipher>)
    requires flags.Some? ==> |flags.value| == |prio|
    ensures r.None? <==>
      forall i :: 0 <= i < |prio| && Acceptable(usable, allow, prio[i]) ==> GroupEnd(flags, |prio|, i) == |prio|
    ensures r.Some? ==> exists i :: 0 <= i < |prio| && prio[i] == r.value && Best(usable, flags, prio, allow, i)
  {
    var groupMin := -1;
    ghost var w := 0;
    for i := 0 to |prio|
      invariant -1 <= groupMin < |allow|
      invariant forall k :: 0 <= k < i && Acceptable(usable, allow, prio[k]) ==>
        GroupEnd(flags, |prio|, k) >= i && 0 <= groupMin <= Rank(allow, prio[k])
      invariant groupMin != -1 ==>
        0 <= w < i && Acceptable(usable, allow, prio[w]) && Rank(allow, prio[w]) == groupMin && flags.Some?
    {
      var c := prio[i];
      var inGroup := flags.Some? && flags.value[i];
      var found := Find(allow, c, 0);
      if flags.Some? {
        forall k | 0 <= k < i && Acceptable(usable, allow, prio[k]) ensures GroupEnd(flags, |prio|, k) == GroupEnd(flags, |prio|, i) {
          EndOfRun(flags, |prio|, k, i);
        }
      }
      if usable(c) && found.Some? {
        var cipherIndex := found.value;
        if inGroup {
          if groupMin == -1 || groupMin > cipherIndex {
            groupMin, w := cipherIndex, i;
          }
        } else {
          if groupMin != -1 && groupMin < cipherIndex {
            LaterIsWorse(flags, |prio|, i);
            assert Best(usable, flags, prio, allow, w);
            return Some(allow[groupMin]);
          }
          LaterIsWorse(flags, |prio|, i);
          assert Best(usable, flags, prio, allow, i);
          return Some(allow[cipherIndex]);
        }
      }
      if flags.Some? && !flags.value[i] && groupMin != -1 {
        LaterIsWorse(flags, |prio|, i);
        assert Best(usable, flags, prio, allow, w);
        return Some(allow[groupMin]);
      }
    }
    r := None;
  }

  // Groups that end at i are over before any later place.
  lemma LaterIsWorse(flags: Flags, n: nat, i: nat)
    requires i < n && (flags.Some? ==> |flags.value| == n)
    ensures forall j :: i < j < n ==> GroupEnd(flags, n, j) > i
  {}

  // A list whose last flag is clear closes every group.
  lemma {:induction false} ClosedList(flags: Flags, n: nat, i: nat)
    requires i < n && (flags.Some? ==> |flags.value| == n && !flags.value[n - 1])
    ensures GroupEnd(flags, n, i) < n
    decreases n - i
  {
    if flags.Some? && flags.value[i] {
      ClosedList(flags, n, i + 1);
    }
  }

  // So there nothing is chosen exactly when nothing is acceptable.
  lemma ClosedListHidesNothing(usable: Cipher -> bool, flags: Flags, prio: seq<Cipher>, allow: seq<Cipher>)
    requires flags.Some? ==> |flags.value| == |prio| && (prio != [] ==> !flags.value[|prio| - 1])
    ensures (forall i :: 0 <= i < |prio| && Acceptable(usable, allow, prio[i]) ==> GroupEnd(flags, |prio|, i) == |prio|)
      <==> (forall i :: 0 <= i < |prio| ==> !Acceptable(usable, allow, prio[i]))
  {
    forall i | 0 <= i < |prio| ensures GroupEnd(flags, |prio|, i) < |prio| {
      ClosedList(flags, |prio|, i);
    }
  }

  // An open group at the end hides its ciphers, even if they are the only ones
  // there are and all of them are acceptable.
  method OpenGroupHides(usable: Cipher -> bool, prio: seq<Cipher>, allow: seq<Cipher>) returns (r: Option<Cipher>)
    requires forall c :: c in prio ==> Acceptable(usable, allow, c)
    ensures r == None
  {
    var flags := seq(|prio|, _ => true);
    OpenToTheEnd(Some(flags), |prio|);
    r := ChooseCipher(usable, Some(flags), prio, allow);
  }

  lemma OpenToTheEnd(flags: Flags, n: nat)
    requires flags.Some? && |flags.value| == n && forall i :: 0 <= i < n ==> flags.value[i]
    ensures forall i :: 0 <= i < n ==> GroupEnd(flags, n, i) == n
  {
    forall i | 0 <= i < n ensures GroupEnd(flags, n, i) == n {
      if GroupEnd(flags, n, i) < n {
        EndIsClear(flags, n, i);
      }
    }
  }

  lemma {:induction false} EndIsClear(flags: Flags, n: nat, i: nat)
    requires i <= n && flags.Some? && |flags.value| == n && GroupEnd(flags, n, i) < n
    ensures !flags.value[GroupEnd(flags, n, i)]
    decreases n - i
  {
    if flags.value[i] {
      EndIsClear(flags, n, i + 1);
    }
  }
}
