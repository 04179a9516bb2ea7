/** ChunkReassembler as data_channel_framing.cpp keeps it: a map of slot vectors with a
    counter, beside a vector of ids in insertion order. */
module ChunkReassembler {
  import opened Common
  import opened Framing
  import opened Reassembly

  datatype InFlightMessage =
    InFlightMessage(chunks: seq<Option<seq<byte>>>, chunkCount: nat, received: nat, firstChunkAt: int)

  function Received(chunks: seq<Option<seq<byte>>>): map<nat, seq<byte>> {
    map k: nat | k < |chunks| && chunks[k].Some? :: chunks[k].value
  }

  function EntryOf(id: nat, msg: InFlightMessage): Entry {
    Entry(id, msg.chunkCount, Received(msg.chunks), msg.firstChunkAt)
  }

  function Entries(order: seq<nat>, inFlight: map<nat, InFlightMessage>): (f: Flight)
    requires forall id :: id in order ==> id in inFlight
    ensures |f| == |order|
    ensures forall i :: 0 <= i < |order| ==> f[i] == EntryOf(order[i], inFlight[order[i]])
  {
    seq(|order|, i requires 0 <= i < |order| => EntryOf(order[i], inFlight[order[i]]))
  }

  /** The counter agrees with the slots, and a slot is still free. */
  predicate SlotsAgree(msg: InFlightMessage) {
    && |msg.chunks| == msg.chunkCount
    && msg.received == |Received(msg.chunks)| < msg.chunkCount <= MAX_CHUNKS
  }

  ghost predicate Distinct(order: seq<nat>) {
    forall i, j :: 0 <= i < j < |order| ==> order[i] != order[j]
  }

  /** The order vector lists the keys of the map, once each. */
  ghost predicate Listed(order: seq<nat>, inFlight: map<nat, InFlightMessage>) {
    Distinct(order) && forall id :: id in order <==> id in inFlight
  }

  function Elements(ids: seq<nat>): set<nat> {
    set id | id in ids
  }

  function Minus(order: seq<nat>, gone: set<nat>): (r: seq<nat>)
    ensures forall id :: id in r <==> id in order && id !in gone
  {
    if order == [] then []
    else
      assert order == [order[0]] + order[1..];
      if order[0] in gone then Minus(order[1..], gone) else [order[0]] + Minus(order[1..], gone)
  }

  lemma {:induction false} MinusDistinct(order: seq<nat>, gone: set<nat>)
    requires Distinct(order)
    ensures Distinct(Minus(order, gone))
  {
    if order != [] {
      var rest := Minus(order[1..], gone);
      MinusDistinct(order[1..], gone);
      if order[0] !in gone {
        forall j | 0 < j < |rest| + 1
          ensures order[0] != ([order[0]] + rest)[j]
        {
          assert rest[j - 1] in order[1..];
        }
      }
    }
  }

  lemma {:induction false} MinusNothing(order: seq<nat>)
    ensures Minus(order, {}) == order
  {
    if order != [] {
      MinusNothing(order[1..]);
    }
  }

  lemma {:induction false} MinusTwice(order: seq<nat>, a: set<nat>, b: set<nat>)
    ensures Minus(Minus(order, a), b) == Minus(order, a + b)
  {
    if order != [] {
      MinusTwice(order[1..], a, b);
    }
  }

  lemma EntriesAgree(order: seq<nat>, m: map<nat, InFlightMessage>, m': map<nat, InFlightMessage>)
    requires forall id :: id in order ==> id in m && id in m' && m[id] == m'[id]
    ensures Entries(order, m) == Entries(order, m')
  {
  }

  lemma EntriesCons(first: nat, rest: seq<nat>, inFlight: map<nat, InFlightMessage>)
    requires first in inFlight && forall id :: id in rest ==> id in inFlight
    ensures Entries([first] + rest, inFlight) == [EntryOf(first, inFlight[first])] + Entries(rest, inFlight)
  {
    hide EntryOf;
  }

  /** Removing ids from the order vector filters the abstract list. */
  lemma {:induction false} EntriesMinus(order: seq<nat>, inFlight: map<nat, InFlightMessage>, gone: set<nat>,
                                        p: Entry -> bool)
    requires forall id :: id in order ==> id in inFlight
    requires forall id :: id in order ==> (id in gone <==> !p(EntryOf(id, inFlight[id])))
    ensures Entries(Minus(order, gone), inFlight) == Keep(Entries(order, inFlight), p)
  {
    if order != [] {
      var first, rest := order[0], order[1..];
      assert order == [first] + rest;
      assert first in order && forall id :: id in rest ==> id in order;
      EntriesMinus(rest, inFlight, gone, p);
      EntriesCons(first, rest, inFlight);
      if first !in gone {
        EntriesCons(first, Minus(rest, gone), inFlight);
      }
      hide EntryOf, Entries;
      assert Entries(order, inFlight)[1..] == Entries(rest, inFlight);
    }
  }

  lemma FullIffCounted(chunks: seq<Option<seq<byte>>>)
    ensures Full(Received(chunks), |chunks|) <==> |Received(chunks)| == |chunks|
    ensures |Received(chunks)| <= |chunks|
  {
    var keys := Received(chunks).Keys;
    assert keys <= Range(|chunks|);
    SubsetSize(keys, Range(|chunks|));
    if Full(Received(chunks), |chunks|) {
      assert keys == Range(|chunks|);
    }
  }

  lemma {:induction false} OrderSize(order: seq<nat>, keys: set<nat>)
    requires Distinct(order)
    requires forall id :: id in order <==> id in keys
    ensures |order| == |keys|
  {
    if order != [] {
      assert order == [order[0]] + order[1..];
      forall id
        ensures id in order[1..] <==> id in keys - {order[0]}
      {
        if id in order[1..] {
          var i :| 0 <= i < |order[1..]| && order[1..][i] == id;
          assert order[i + 1] == id;
        }
      }
      OrderSize(order[1..], keys - {order[0]});
    } else {
      assert keys == {};
    }
  }

  lemma ListedMinus(order: seq<nat>, inFlight: map<nat, InFlightMessage>, gone: set<nat>)
    requires Listed(order, inFlight)
    ensures Listed(Minus(order, gone), inFlight - gone)
  {
    MinusDistinct(order, gone);
  }

  lemma DistinctTail(first: nat, rest: seq<nat>)
    requires Distinct([first] + rest)
    ensures Distinct(rest) && first !in rest
  {
    var order := [first] + rest;
    assert order[0] == first && forall i :: 0 <= i < |rest| ==> rest[i] == order[i + 1];
  }

  lemma ListedTail(first: nat, rest: seq<nat>, inFlight: map<nat, InFlightMessage>)
    requires Listed([first] + rest, inFlight)
    ensures Listed(rest, inFlight - {first})
    ensures Entries(rest, inFlight - {first}) == Entries([first] + rest, inFlight)[1..]
  {
    DistinctTail(first, rest);
    assert forall id :: id in [first] + rest <==> id == first || id in rest;
    hide Distinct, EntryOf, Entries;
    EntriesCons(first, rest, inFlight);
    EntriesAgree(rest, inFlight, inFlight - {first});
  }

  lemma ListedExtended(order: seq<nat>, inFlight: map<nat, InFlightMessage>, id: nat, msg: InFlightMessage)
    requires Listed(order, inFlight) && id !in inFlight
    ensures Listed(order + [id], inFlight[id := msg])
    ensures Entries(order + [id], inFlight[id := msg]) == Entries(order, inFlight) + [EntryOf(id, msg)]
  {
    assert id !in order;
  }

  lemma ListedUpdated(order: seq<nat>, inFlight: map<nat, InFlightMessage>, i: nat, msg: InFlightMessage)
    requires Listed(order, inFlight) && i < |order|
    ensures Listed(order, inFlight[order[i] := msg])
    ensures Entries(order, inFlight[order[i] := msg]) == Entries(order, inFlight)[i := EntryOf(order[i], msg)]
  {
    assert order[i] in order;
  }

  /** `rest` keeps some of the messages of `all`, untouched. */
  predicate Shrunk(rest: map<nat, InFlightMessage>, all: map<nat, InFlightMessage>) {
    forall id :: id in rest ==> id in all && rest[id] == all[id]
  }

  predicate AllAgree(inFlight: map<nat, InFlightMessage>) {
    forall id :: id in inFlight ==> SlotsAgree(inFlight[id])
  }

  lemma SlotFilled(msg: InFlightMessage, index: nat, payload: seq<byte>)
    requires SlotsAgree(msg) && index < msg.chunkCount && msg.chunks[index].None?
    ensures var chunks := msg.chunks[index := Some(payload)];
            && Received(chunks) == Received(msg.chunks)[index := payload]
            && |Received(chunks)| == msg.received + 1 <= msg.chunkCount
            && (Full(Received(chunks), msg.chunkCount) <==> msg.received + 1 == msg.chunkCount)
  {
    var chunks := msg.chunks[index := Some(payload)];
    assert Received(chunks) == Received(msg.chunks)[index := payload];
    FullIffCounted(chunks);
  }

  lemma SlotIsReceived(chunks: seq<Option<seq<byte>>>, k: nat)
    requires k < |chunks|
    ensures chunks[k].Some? <==> k in Received(chunks)
  {
  }

  lemma ListedFacts(order: seq<nat>, inFlight: map<nat, InFlightMessage>)
    requires Listed(order, inFlight)
    ensures forall id :: id in order ==> id in inFlight
    ensures forall i :: 0 <= i < |order| ==> order[i] in inFlight
  {
  }

  /** Without one message, map and order vector list what the abstract list lists without it. */
  lemma WithoutMessage(order: seq<nat>, inFlight: map<nat, InFlightMessage>, id: nat)
    requires Listed(order, inFlight)
    ensures Listed(Minus(order, {id}), inFlight - {id})
    ensures Entries(Minus(order, {id}), inFlight - {id}) == Without(Entries(order, inFlight), id)
  {
    EntriesMinus(order, inFlight, {id}, (n: Entry) => n.id != id);
    ListedMinus(order, inFlight, {id});
    hide Distinct, EntryOf, Keep;
    EntriesAgree(Minus(order, {id}), inFlight - {id}, inFlight);
  }

  method Concatenate(chunks: seq<Option<seq<byte>>>) returns (whole: seq<byte>)
    requires Full(Received(chunks), |chunks|)
    ensures whole == Join(Received(chunks), |chunks|)
  {
    whole := [];
    for k := 0 to |chunks|
      invariant whole == Join(Received(chunks), k)
    {
      assert k in Received(chunks);
      whole := whole + chunks[k].value;
    }
  }

  /** The header checks, in source order. */
  method CheckHeader(raw: seq<byte>) returns (header: Option<Envelope>)
    ensures header == Parse(raw)
  {
    if |raw| < HEADER_SIZE {
      return None;
    }
    if raw[..4] != Magic() {
      return None;
    }
    if raw[4] != VERSION {
      return None;
    }
    var id := ReadU32LE(raw, 5);
    var index := ReadU16LE(raw, 9);
    var count := ReadU16LE(raw, 11);
    var len := ReadU32LE(raw, 13);
    if count < 1 || count > MAX_CHUNKS {
      return None;
    }
    if HEADER_SIZE + len > |raw| {
      return None;
    }
    if index >= count {
      return None;
    }
    return Some(Envelope(id, index, count, raw[HEADER_SIZE..HEADER_SIZE + len]));
  }

  class Reassembler {
    const timeout: int
    var inFlight: map<nat, InFlightMessage>
    var inFlightOrder: seq<nat>
    ghost var history: seq<Arrival>

    /** Map, order vector and counters agree, and the state is the one the abstract machine
        reaches on the calls made so far. */
    ghost predicate Valid()
      reads this
    {
      && Listed(inFlightOrder, inFlight)
      && AllAgree(inFlight)
      && Proper(history)
      && Flight() == Run(history, timeout)
    }

    ghost function Flight(): Flight
      requires Listed(inFlightOrder, inFlight)
      reads this
    {
      Entries(inFlightOrder, inFlight)
    }

    ghost predicate ClockAtMost(now: int)
      reads this
    {
      history == [] || history[|history| - 1].stamp <= now
    }

    constructor (timeout: int)
      ensures Valid() && history == [] && this.timeout == timeout
    {
      this.timeout := timeout;
      inFlight := map[];
      inFlightOrder := [];
      history := [];
    }

    method FindTimedOut(now: int) returns (toEvict: seq<nat>)
      ensures forall id :: id in toEvict <==> id in inFlight && now - inFlight[id].firstChunkAt > timeout
    {
      toEvict := [];
      var todo := inFlight.Keys;
      while todo != {}
        invariant todo <= inFlight.Keys
        invariant forall id :: id in toEvict <==>
                    id in inFlight && id !in todo && now - inFlight[id].firstChunkAt > timeout
        decreases |todo|
      {
        var id :| id in todo;
        if now - inFlight[id].firstChunkAt > timeout {
          toEvict := toEvict + [id];
        }
        todo := todo - {id};
      }
    }

    method Erase(id: nat)
      modifies this`inFlight, this`inFlightOrder
      ensures inFlight == old(inFlight) - {id}
      ensures inFlightOrder == Minus(old(inFlightOrder), {id})
    {
      inFlight := inFlight - {id};
      inFlightOrder := Minus(inFlightOrder, {id});
    }

    method EraseAll(ids: seq<nat>)
      modifies this`inFlight, this`inFlightOrder
      ensures inFlight == old(inFlight) - Elements(ids)
      ensures inFlightOrder == Minus(old(inFlightOrder), Elements(ids))
    {
      MinusNothing(inFlightOrder);
      ghost var done: set<nat> := {};
      for i := 0 to |ids|
        invariant done == Elements(ids[..i])
        invariant inFlight == old(inFlight) - done
        invariant inFlightOrder == Minus(old(inFlightOrder), done)
      {
        MinusTwice(old(inFlightOrder), done, {ids[i]});
        Erase(ids[i]);
        done := done + {ids[i]};
        assert ids[..i + 1] == ids[..i] + [ids[i]];
      }
      assert ids[..|ids|] == ids;
      assert done == Elements(ids);
    }

    method EvictTimedOut(now: int)
      requires Listed(inFlightOrder, inFlight)
      modifies this`inFlight, this`inFlightOrder
      ensures Listed(inFlightOrder, inFlight) && Shrunk(inFlight, old(inFlight))
      ensures Flight() == DropExpired(old(Flight()), now, timeout)
    {
      var toEvict := FindTimedOut(now);
      ghost var gone := Elements(toEvict);
      EntriesMinus(inFlightOrder, inFlight, gone, (m: Entry) => now - m.since <= timeout);
      ListedMinus(inFlightOrder, inFlight, gone);
      EraseAll(toEvict);
      EntriesAgree(inFlightOrder, inFlight, old(inFlight));
    }

    method EvictOldestIfFull()
      requires Listed(inFlightOrder, inFlight)
      modifies this`inFlight, this`inFlightOrder
      ensures Listed(inFlightOrder, inFlight) && Shrunk(inFlight, old(inFlight))
      ensures Flight() == MakeRoom(old(Flight()))
    {
      hide Distinct, EntryOf, Entries;
      OrderSize(inFlightOrder, inFlight.Keys);
      if |inFlight| < MAX_IN_FLIGHT {
        return;
      }
      var oldest := inFlightOrder[0];
      assert inFlightOrder == [oldest] + inFlightOrder[1..];
      ListedTail(oldest, inFlightOrder[1..], inFlight);
      inFlightOrder := inFlightOrder[1..];
      inFlight := inFlight - {oldest};
    }

    /** Finds the message of `env`, or opens it after making room. */
    method Open(env: Envelope, stamp: int)
      requires Listed(inFlightOrder, inFlight) && AllAgree(inFlight)
      requires 1 <= env.count <= MAX_CHUNKS
      modifies this`inFlight, this`inFlightOrder
      ensures Listed(inFlightOrder, inFlight) && AllAgree(inFlight)
      ensures env.id in inFlight
      ensures Flight() == Opened(old(Flight()), env, stamp)
    {
      var id := env.id;
      if id in inFlight {
        ghost var i :| 0 <= i < |inFlightOrder| && inFlightOrder[i] == id;
        assert Flight()[i].id == id;
        return;
      }
      assert !Has(Flight(), id);
      EvictOldestIfFull();
      var msg := InFlightMessage(seq(env.count, _ => None), env.count, 0, stamp);
      assert Received(msg.chunks) == map[];
      ListedExtended(inFlightOrder, inFlight, id, msg);
      inFlight := inFlight[id := msg];
      inFlightOrder := inFlightOrder + [id];
    }

    /** Takes a complete message out and returns its payload. */
    method Finish(id: nat) returns (whole: seq<byte>)
      requires id in inFlight && Full(Received(inFlight[id].chunks), |inFlight[id].chunks|)
      modifies this`inFlight, this`inFlightOrder
      ensures inFlight == old(inFlight) - {id} && inFlightOrder == Minus(old(inFlightOrder), {id})
      ensures whole == Join(Received(old(inFlight)[id].chunks), |old(inFlight)[id].chunks|)
    {
      whole := Concatenate(inFlight[id].chunks);
      Erase(id);
    }

    /** Files one chunk of a message that is in flight. */
    method Store(env: Envelope) returns (result: Option<seq<byte>>)
      requires Listed(inFlightOrder, inFlight) && AllAgree(inFlight) && DistinctIds(Flight())
      requires env.index < env.count && env.id in inFlight && Has(Flight(), env.id)
      modifies this`inFlight, this`inFlightOrder
      ensures Listed(inFlightOrder, inFlight) && AllAgree(inFlight)
      ensures (Flight(), result) == Accept(old(Flight()), env)
    {
      hide Listed, Received, Full, Join, Distinct, Without, Has, DistinctIds;
      var id, index := env.id, env.index;
      ghost var i := Position(Flight(), id);
      ListedFacts(inFlightOrder, inFlight);
      var msg := inFlight[id];
      if msg.chunkCount != env.count {
        return None;
      }
      SlotIsReceived(msg.chunks, index);
      if msg.chunks[index].Some? {
        return None;
      }
      var updated := InFlightMessage(msg.chunks[index := Some(env.payload)], msg.chunkCount, msg.received + 1,
                                     msg.firstChunkAt);
      SlotFilled(msg, index, env.payload);
      ListedUpdated(inFlightOrder, inFlight, i, updated);
      inFlight := inFlight[id := updated];
      if updated.received < updated.chunkCount {
        return None;
      }
      WithoutMessage(inFlightOrder, old(inFlight), id);
      assert inFlight - {id} == old(inFlight) - {id};
      var whole := Finish(id);
      return Some(whole);
    }

    /** One push is one step of the abstract machine, and returns what that step returns. */
    method PushChunk(raw: seq<byte>, now: int, stamp: int) returns (result: Option<seq<byte>>)
      requires Valid() && ClockAtMost(now) && now <= stamp
      modifies this
      ensures Valid()
      ensures history == old(history) + [Arrival(Parse(raw), now, stamp)]
      ensures result == Output(history, |history| - 1, timeout)
    {
      AcceptedIsWellFormed(raw);
      PushSteps(history, Arrival(Parse(raw), now, stamp), timeout);
      history := history + [Arrival(Parse(raw), now, stamp)];
      EvictTimedOut(now);
      var header := CheckHeader(raw);
      if header.None? {
        return None;
      }
      Open(header.value, stamp);
      result := Store(header.value);
    }
  }

  /** The fields of every reassembler that calls have produced: at most sixteen messages, in
      the order they were opened, each short of a chunk and counting what it has. */
  lemma ReachableFields(r: Reassembler)
    requires r.Valid()
    ensures |r.inFlightOrder| <= 16 && Distinct(r.inFlightOrder)
    ensures forall id :: id in r.inFlightOrder <==> id in r.inFlight
    ensures forall i, j :: 0 <= i < j < |r.inFlightOrder| ==>
              r.inFlight[r.inFlightOrder[i]].firstChunkAt <= r.inFlight[r.inFlightOrder[j]].firstChunkAt
    ensures forall id :: id in r.inFlight ==>
              && r.inFlight[id].received == |Received(r.inFlight[id].chunks)| < r.inFlight[id].chunkCount
              && |r.inFlight[id].chunks| == r.inFlight[id].chunkCount
  {
    var es := r.history;
    RunInv(es, r.timeout, if es == [] then 0 else es[|es| - 1].stamp);
    var f := r.Flight();
    forall i, j | 0 <= i < j < |r.inFlightOrder|
      ensures r.inFlight[r.inFlightOrder[i]].firstChunkAt <= r.inFlight[r.inFlightOrder[j]].firstChunkAt
    {
      assert f[i].since <= f[j].since;
    }
  }
}
