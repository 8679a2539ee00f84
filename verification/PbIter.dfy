// The circular field iterator of pb_common.c.

module PbIter {
  import opened PbMessage

  // How many of the first n fields are required.
  function RequiredBefore(fields: seq<Field>, n: nat): (k: nat)
    requires n <= |fields|
    ensures k <= n
  {
    if n == 0 then 0 else RequiredBefore(fields, n - 1) + (if fields[n - 1].rule.Required? then 1 else 0)
  }

  // The tag under the iterator; behind the last field there is a terminator
  // with tag 0.
  function TagAt(fields: seq<Field>, pos: nat): nat
    requires pos <= |fields|
  {
    if pos == |fields| then 0 else fields[pos].tag
  }

  ghost predicate HasTag(fields: seq<Field>, tag: nat) {
    if fields == [] then tag == 0 else exists i :: 0 <= i < |fields| && fields[i].tag == tag
  }

  class FieldIter {
    const start: seq<Field>
    var pos: nat
    var requiredFieldIndex: nat

    // The state is a function of the position alone. Only in an empty message
    // the iterator is on the terminator.
    ghost predicate Valid()
      reads this
    {
      && pos <= |start| && (pos == |start| ==> start == [])
      && requiredFieldIndex == RequiredBefore(start, pos)
    }

    constructor (fields: seq<Field>)
      ensures Valid() && start == fields && pos == 0
    {
      start, pos, requiredFieldIndex := fields, 0, 0;
    }

    // pb_field_iter_begin
    method Begin() returns (more: bool)
      modifies this
      ensures Valid() && pos == 0 && more == (start != [])
    {
      pos, requiredFieldIndex := 0, 0;
      more := pos < |start|;
    }

    // pb_field_iter_next
    method Next() returns (more: bool)
      requires Valid()
      modifies this
      ensures Valid() && more == (old(pos) + 1 < |start|)
      ensures pos == if more then old(pos) + 1 else 0
    {
      if pos == |start| {
        return false;
      }
      var prevRequired := start[pos].rule.Required?;
      pos := pos + 1;
      if pos == |start| {
        var _ := Begin();
        return false;
      }
      if prevRequired {
        requiredFieldIndex := requiredFieldIndex + 1;
      }
      more := true;
    }

    // pb_field_iter_find: succeeds from any position exactly when the tag
    // exists, and otherwise comes back to where it was.
    method Find(tag: nat) returns (found: bool)
      requires Valid()
      modifies this
      ensures Valid() && found == HasTag(start, tag)
      ensures found ==> TagAt(start, pos) == tag
      ensures !found ==> pos == old(pos)
    {
      var origin := pos;
      var first := true;
      while first || pos != origin
        invariant Valid()
        invariant !first && pos > origin ==> forall i :: origin <= i < pos ==> start[i].tag != tag
        invariant !first && pos <= origin ==> forall i :: 0 <= i < |start| && (i < pos || origin <= i) ==> start[i].tag != tag
        invariant first ==> pos == origin
        invariant !first && start == [] ==> tag != 0
        decreases first, if first then 0 else if pos > origin then |start| + origin - pos else origin - pos
      {
        if TagAt(start, pos) == tag {
          return true;
        }
        var _ := Next();
        first := false;
      }
      found := false;
    }
  }
}
