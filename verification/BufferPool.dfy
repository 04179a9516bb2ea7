/** The first-fit pool of intermediate image buffers (buffer_pool.cpp). */
module BufferPool {
  import opened Common

  type Buffer = array<byte>

  ghost predicate NoRepeats(s: seq<Buffer>) {
    forall i, j :: 0 <= i < j < |s| ==> s[i] != s[j]
  }

  function Removed(s: seq<Buffer>, i: nat): seq<Buffer>
    requires i < |s|
  {
    s[..i] + s[i + 1..]
  }

  /** Index of the first buffer that is large enough, or |s|. */
  function FirstFit(s: seq<Buffer>, size: nat): (i: nat)
    ensures i <= |s|
    ensures forall j :: 0 <= j < i ==> s[j].Length < size
    ensures i < |s| ==> s[i].Length >= size
  {
    if s == [] || s[0].Length >= size then 0 else 1 + FirstFit(s[1..], size)
  }

  class Pool {
    var available: seq<Buffer>
    var inUse: seq<Buffer>
    var totalCreated: nat

    /** Every buffer the pool made is in exactly one of the two lists, once. */
    ghost predicate Valid()
      reads this
    {
      NoRepeats(available + inUse) && |available| + |inUse| == totalCreated
    }

    ghost function Buffers(): set<Buffer>
      reads this
    {
      set b | b in available + inUse
    }

    ghost function Free(): set<Buffer>
      reads this
    {
      set b | b in available
    }

    constructor ()
      ensures Valid() && available == [] && inUse == []
    {
      available, inUse, totalCreated := [], [], 0;
    }

    method FindFit(size: nat) returns (i: nat)
      ensures i == FirstFit(available, size)
    {
      i := 0;
      while i < |available| && available[i].Length < size
        invariant i <= |available|
        invariant i + FirstFit(available[i..], size) == FirstFit(available, size)
      {
        assert available[i..][1..] == available[i + 1..];
        i := i + 1;
      }
    }

    /** First fit: the earliest available buffer of sufficient size moves over; only when
        there is none is a new one made. The contents of a reused buffer are left alone. */
    method Acquire(size: nat) returns (buffer: Buffer)
      requires Valid()
      modifies this
      ensures Valid()
      ensures buffer.Length >= size && buffer !in old(inUse) && buffer !in available
      ensures inUse == old(inUse) + [buffer]
      ensures var i := FirstFit(old(available), size);
              if i < |old(available)| then
                && buffer == old(available)[i]
                && available == old(available[..i]) + old(available[i + 1..]) && totalCreated == old(totalCreated)
              else
                && fresh(buffer) && buffer.Length == size && (forall k :: 0 <= k < size ==> buffer[k] == 0)
                && available == old(available) && totalCreated == old(totalCreated) + 1
    {
      hide NoRepeats;
      var i := FindFit(size);
      if i < |available| {
        buffer := available[i];
        TakenOut(available, inUse, i);
        available := available[..i] + available[i + 1..];
        inUse := inUse + [buffer];
      } else {
        buffer := new byte[size](_ => 0);
        Appended(available, inUse, buffer);
        inUse := inUse + [buffer];
        totalCreated := totalCreated + 1;
      }
    }

    /** A buffer in use goes back to the end of the available list; anything else is ignored. */
    method Release(buffer: Buffer)
      requires Valid()
      modifies this
      ensures Valid() && totalCreated == old(totalCreated)
      ensures buffer !in old(inUse) ==> available == old(available) && inUse == old(inUse)
      ensures forall i :: 0 <= i < |old(inUse)| && old(inUse)[i] == buffer ==>
                && available == old(available) + [buffer]
                && inUse == old(inUse[..i]) + old(inUse[i + 1..])
    {
      var i := 0;
      while i < |inUse| && inUse[i] != buffer
        invariant i <= |inUse|
        invariant forall j :: 0 <= j < i ==> inUse[j] != buffer
      {
        i := i + 1;
      }
      if i < |inUse| {
        PutBack(available, inUse, i);
        OnlyOnce(available, inUse, i);
        hide NoRepeats;
        inUse := inUse[..i] + inUse[i + 1..];
        available := available + [buffer];
      }
    }

    method Clear()
      modifies this
      ensures Valid() && available == [] && inUse == [] && totalCreated == 0
    {
      available, inUse, totalCreated := [], [], 0;
    }
  }

  lemma MovedToEnd(all: seq<Buffer>, i: nat, moved: seq<Buffer>)
    requires NoRepeats(all) && i < |all| && moved == all[..i] + all[i + 1..] + [all[i]]
    ensures NoRepeats(moved)
  {
  }

  lemma TakenOut(available: seq<Buffer>, inUse: seq<Buffer>, i: nat)
    requires NoRepeats(available + inUse) && i < |available|
    ensures available[i] !in inUse && available[i] !in Removed(available, i)
    ensures NoRepeats(Removed(available, i) + (inUse + [available[i]]))
  {
    var all, rest := available + inUse, Removed(available, i);
    assert all[i] == available[i];
    assert forall j :: 0 <= j < |inUse| ==> all[|available| + j] == inUse[j];
    assert forall j :: 0 <= j < |rest| ==> rest[j] == all[if j < i then j else j + 1];
    MovedToEnd(all, i, rest + (inUse + [available[i]]));
  }

  lemma Appended(available: seq<Buffer>, inUse: seq<Buffer>, buffer: Buffer)
    requires NoRepeats(available + inUse) && buffer !in available && buffer !in inUse
    ensures NoRepeats(available + (inUse + [buffer]))
  {
    assert available + (inUse + [buffer]) == (available + inUse) + [buffer];
    assert forall j :: 0 <= j < |available + inUse| ==> (available + inUse)[j] != buffer;
  }

  lemma PutBack(available: seq<Buffer>, inUse: seq<Buffer>, i: nat)
    requires NoRepeats(available + inUse) && i < |inUse|
    ensures NoRepeats((available + [inUse[i]]) + Removed(inUse, i))
  {
    MovedToMiddle(available + inUse, |available|, |available| + i, (available + [inUse[i]]) + Removed(inUse, i));
  }

  lemma OnlyOnce(available: seq<Buffer>, inUse: seq<Buffer>, i: nat)
    requires NoRepeats(available + inUse) && i < |inUse|
    ensures forall j :: 0 <= j < |inUse| && inUse[j] == inUse[i] ==> j == i
  {
    assert forall j :: 0 <= j < |inUse| ==> (available + inUse)[|available| + j] == inUse[j];
  }

  lemma MovedToMiddle(all: seq<Buffer>, k: nat, i: nat, moved: seq<Buffer>)
    requires NoRepeats(all) && k <= i < |all| && moved == all[..k] + [all[i]] + all[k..i] + all[i + 1..]
    ensures NoRepeats(moved)
  {
  }
}
