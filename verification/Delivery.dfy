/** Packing and reassembling together: when interleaved, reordered, duplicated, late and
    corrupted traffic delivers a message, and exactly when it delivers it once. */
module Delivery {
  import opened Common
  import opened Framing
  import opened Reassembly

  /** The messages under way, by id: `sent[id]` was given to PackMessage under `id`. */
  type Catalogue = map<nat, seq<byte>>

  predicate Sendable(sent: Catalogue) {
    forall id :: id in sent ==> id < U32 && |sent[id]| <= MAX_MESSAGE_BYTES
  }

  ghost predicate IsChunk(sent: Catalogue, e: Arrival, id: nat, k: nat)
    requires Sendable(sent)
  {
    id in sent && k < ChunkCount(|sent[id]|) && e.header == Parse(PackedChunk(id, sent[id], k))
  }

  /** A buffer on the wire is some packed chunk, or one the header checks reject. */
  ghost predicate Traffic(sent: Catalogue, e: Arrival)
    requires Sendable(sent)
  {
    e.header.None? || exists id, k :: IsChunk(sent, e, id, k)
  }

  predicate BringsFor(e: Arrival, id: nat) {
    e.header.Some? && e.header.value.id == id
  }

  /** All chunk indices of the message `id`. */
  function Whole(sent: Catalogue, id: nat): set<nat>
    requires id in sent
  {
    Range(ChunkCount(|sent[id]|))
  }

  /** The chunk indices of `id` that the pushes from `b` up to `n` bring. */
  function Seen(es: seq<Arrival>, b: nat, n: nat, id: nat): set<nat>
    requires n <= |es|
  {
    if n <= b then {}
    else if BringsFor(es[n - 1], id) then Seen(es, b, n - 1, id) + {es[n - 1].header.value.index}
    else Seen(es, b, n - 1, id)
  }

  /** The chunk indices of `id` seen among the first `n` pushes since the message was last
      complete. */
  function Pending(sent: Catalogue, es: seq<Arrival>, n: nat, id: nat): set<nat>
    requires n <= |es| && id in sent
  {
    if n == 0 then {}
    else if BringsFor(es[n - 1], id) then
      var ks := Pending(sent, es, n - 1, id) + {es[n - 1].header.value.index};
      if ks == Whole(sent, id) then {} else ks
    else Pending(sent, es, n - 1, id)
  }

  /** The push that brought the first of the pending chunks. */
  function Opening(sent: Catalogue, es: seq<Arrival>, n: nat, id: nat): (i: nat)
    requires n <= |es| && id in sent && Pending(sent, es, n, id) != {}
    ensures i < n
  {
    if Pending(sent, es, n - 1, id) == {} then n - 1 else Opening(sent, es, n - 1, id)
  }

  function Since(sent: Catalogue, es: seq<Arrival>, n: nat, id: nat): int
    requires n <= |es| && id in sent && Pending(sent, es, n, id) != {}
  {
    es[Opening(sent, es, n, id)].stamp
  }

  function Waiting(sent: Catalogue, es: seq<Arrival>, n: nat): set<nat>
    requires n <= |es|
  {
    set id | id in sent && Pending(sent, es, n, id) != {}
  }

  /** What is on the wire is packed chunks and rejected buffers, and the clock does not go back. */
  ghost predicate Packed(sent: Catalogue, es: seq<Arrival>) {
    && Sendable(sent) && Proper(es)
    && forall i :: 0 <= i < |es| ==> Traffic(sent, es[i])
  }

  /** The conditions under which the cap and the timeout take nothing away in the first `n`
      pushes. The arriving message counts towards the cap even when its only chunk completes it,
      because room is made before that. */
  ghost predicate FairUpTo(sent: Catalogue, es: seq<Arrival>, n: nat, timeout: int)
    requires n <= |es|
  {
    Packed(sent, es) && forall i :: 0 <= i < n ==> FitsCap(sent, es, i) && InTime(sent, es, i, timeout)
  }

  ghost predicate Fair(sent: Catalogue, es: seq<Arrival>, timeout: int) {
    FairUpTo(sent, es, |es|, timeout)
  }

  predicate FitsCap(sent: Catalogue, es: seq<Arrival>, i: nat)
    requires i < |es|
  {
    es[i].header.Some? ==> |Waiting(sent, es, i) + {es[i].header.value.id}| <= MAX_IN_FLIGHT
  }

  predicate InTime(sent: Catalogue, es: seq<Arrival>, i: nat, timeout: int)
    requires i < |es|
  {
    forall id :: id in Waiting(sent, es, i) ==> es[i].now - Since(sent, es, i, id) <= timeout
  }

  function Slices(payload: seq<byte>, ks: set<nat>): map<nat, seq<byte>> {
    map k | k in ks && k < ChunkCount(|payload|) :: Slice(payload, k)
  }

  function EntryFor(sent: Catalogue, es: seq<Arrival>, n: nat, id: nat): Entry
    requires n <= |es| && id in sent && Pending(sent, es, n, id) != {}
  {
    Entry(id, ChunkCount(|sent[id]|), Slices(sent[id], Pending(sent, es, n, id)), Since(sent, es, n, id))
  }

  function Lookup(f: Flight, id: nat): Option<Entry> {
    if Has(f, id) then Some(f[Position(f, id)]) else None
  }

  /** What the flight should hold under `id` after `n` pushes: the slices that came since the
      message was last complete. */
  function Awaited(sent: Catalogue, es: seq<Arrival>, n: nat, id: nat): Option<Entry>
    requires n <= |es|
  {
    if id in Waiting(sent, es, n) then Some(EntryFor(sent, es, n, id)) else None
  }

  ghost predicate Tracks(sent: Catalogue, es: seq<Arrival>, n: nat, f: Flight)
    requires n <= |es|
  {
    DistinctIds(f) && forall id :: Lookup(f, id) == Awaited(sent, es, n, id)
  }

  lemma LookupMember(f: Flight, m: Entry)
    requires DistinctIds(f)
    ensures m in f <==> Lookup(f, m.id) == Some(m)
  {
  }

  lemma {:induction false} FlightSize(f: Flight, ids: set<nat>)
    requires DistinctIds(f)
    requires forall m :: m in f ==> m.id in ids
    ensures |f| <= |ids|
  {
    if f != [] {
      assert f == [f[0]] + f[1..];
      assert forall j :: 0 <= j < |f[1..]| ==> f[1..][j] == f[j + 1];
      FlightSize(f[1..], ids - {f[0].id});
    }
  }

  lemma {:induction false} KeepAll(f: Flight, p: Entry -> bool)
    requires forall m :: m in f ==> p(m)
    ensures Keep(f, p) == f
  {
    if f != [] {
      assert f == [f[0]] + f[1..];
      KeepAll(f[1..], p);
    }
  }

  /** A chunk reads back as the slice it carries. */
  lemma ChunkOf(sent: Catalogue, e: Arrival)
    requires Sendable(sent) && Traffic(sent, e)
    ensures e.header.Some? ==>
              var env := e.header.value;
              && env.id in sent && env.count == ChunkCount(|sent[env.id]|) && env.index < env.count
              && env.payload == Slice(sent[env.id], env.index)
  {
    if e.header.Some? {
      var id, k :| IsChunk(sent, e, id, k);
      PackedChunkParses(id, sent[id], k);
    }
  }

  lemma {:induction false} JoinSlices(payload: seq<byte>, got: map<nat, seq<byte>>, n: nat)
    requires n <= ChunkCount(|payload|)
    requires forall k: nat :: k < n ==> k in got && got[k] == Slice(payload, k)
    ensures Join(got, n) == JoinedSlices(payload, n)
  {
    if n > 0 {
      JoinSlices(payload, got, n - 1);
    }
  }

  lemma {:induction false} PendingBounds(sent: Catalogue, es: seq<Arrival>, n: nat, id: nat)
    requires n <= |es| && Sendable(sent) && forall i :: 0 <= i < |es| ==> Traffic(sent, es[i])
    requires id in sent
    ensures Pending(sent, es, n, id) < Whole(sent, id)
  {
    assert 0 in Whole(sent, id);
    if n > 0 {
      PendingBounds(sent, es, n - 1, id);
      ChunkOf(sent, es[n - 1]);
    }
  }

  lemma TrackedAreWaiting(sent: Catalogue, es: seq<Arrival>, n: nat, f: Flight)
    requires n <= |es| && Tracks(sent, es, n, f)
    ensures forall m :: m in f ==> m.id in Waiting(sent, es, n) && m == EntryFor(sent, es, n, m.id)
    ensures forall id :: id in Waiting(sent, es, n) <==> Has(f, id)
  {
    forall m | m in f
      ensures m.id in Waiting(sent, es, n) && m == EntryFor(sent, es, n, m.id)
    {
      LookupMember(f, m);
      assert Lookup(f, m.id) == Awaited(sent, es, n, m.id);
    }
    forall id
      ensures id in Waiting(sent, es, n) <==> Has(f, id)
    {
      assert Lookup(f, id) == Awaited(sent, es, n, id);
    }
  }

  /** Nothing expires in time. */
  lemma NothingExpires(sent: Catalogue, es: seq<Arrival>, n: nat, timeout: int, f: Flight)
    requires n < |es| && Tracks(sent, es, n, f) && InTime(sent, es, n, timeout)
    ensures DropExpired(f, es[n].now, timeout) == f
  {
    TrackedAreWaiting(sent, es, n, f);
    KeepAll(f, (m: Entry) => es[n].now - m.since <= timeout);
  }

  /** Nothing of a fair run expires, and the arriving message finds room. */
  lemma OpenedTracks(sent: Catalogue, es: seq<Arrival>, n: nat, timeout: int)
    requires n < |es| && FairUpTo(sent, es, n + 1, timeout) && Tracks(sent, es, n, Run(es[..n], timeout))
    ensures DropExpired(Run(es[..n], timeout), es[n].now, timeout) == Run(es[..n], timeout)
    ensures es[n].header.Some? ==>
              var env := es[n].header.value;
              var f := Run(es[..n], timeout);
              Opened(f, env, es[n].stamp) ==
              if Has(f, env.id) then f else f + [Entry(env.id, env.count, map[], es[n].stamp)]
  {
    var f := Run(es[..n], timeout);
    assert FitsCap(sent, es, n) && InTime(sent, es, n, timeout);
    NothingExpires(sent, es, n, timeout, f);
    TrackedAreWaiting(sent, es, n, f);
    if es[n].header.Some? {
      var env := es[n].header.value;
      if !Has(f, env.id) {
        var ids := Waiting(sent, es, n);
        FlightSize(f, ids);
        assert |ids + {env.id}| == |ids| + 1;
      }
    }
  }

  /** A push that brings nothing for `id` leaves it as it was. */
  lemma Untouched(sent: Catalogue, es: seq<Arrival>, n: nat, id: nat)
    requires n < |es| && !BringsFor(es[n], id)
    ensures Awaited(sent, es, n + 1, id) == Awaited(sent, es, n, id)
  {
    if id in sent {
      assert Pending(sent, es, n + 1, id) == Pending(sent, es, n, id);
    }
  }

  /** The entry of the arriving message as the push finds or opens it. */
  function Found(sent: Catalogue, es: seq<Arrival>, n: nat, env: Envelope): Entry
    requires n < |es| && env.id in sent
  {
    if Pending(sent, es, n, env.id) == {} then Entry(env.id, env.count, map[], es[n].stamp)
    else EntryFor(sent, es, n, env.id)
  }

  /** The arriving chunk adds its slice to the entry, unless it completes the message. */
  lemma Touched(sent: Catalogue, es: seq<Arrival>, n: nat, env: Envelope)
    requires n < |es| && Sendable(sent) && forall i :: 0 <= i < |es| ==> Traffic(sent, es[i])
    requires es[n].header == Some(env)
    ensures env.id in sent && env.index < env.count == ChunkCount(|sent[env.id]|)
    ensures var m, ks := Found(sent, es, n, env), Pending(sent, es, n, env.id);
            && m.count == env.count
            && (env.index in m.got <==> env.index in ks)
            && m.got[env.index := env.payload] == Slices(sent[env.id], ks + {env.index})
            && (ks + {env.index} != Whole(sent, env.id) ==>
                  && Pending(sent, es, n + 1, env.id) == ks + {env.index}
                  && EntryFor(sent, es, n + 1, env.id) == m.(got := m.got[env.index := env.payload]))
            && (ks + {env.index} == Whole(sent, env.id) ==> Pending(sent, es, n + 1, env.id) == {})
  {
    ChunkOf(sent, es[n]);
    var ks := Pending(sent, es, n, env.id);
    assert BringsFor(es[n], env.id);
    assert Slices(sent[env.id], ks + {env.index}) == Slices(sent[env.id], ks)[env.index := env.payload];
    assert Slices(sent[env.id], {}) == map[];
  }

  /** All slices are there exactly when all chunks have arrived, and then they join to the
      message. */
  lemma SlicesFull(payload: seq<byte>, ks: set<nat>)
    requires ks <= Range(ChunkCount(|payload|))
    ensures var count := ChunkCount(|payload|);
            && (Full(Slices(payload, ks), count) <==> ks == Range(count))
            && (Full(Slices(payload, ks), count) ==> Join(Slices(payload, ks), count) == payload)
  {
    var got, count := Slices(payload, ks), ChunkCount(|payload|);
    if Full(got, count) {
      forall k: nat | k < count
        ensures k in ks && got[k] == Slice(payload, k)
      {
        assert k in got;
      }
      JoinSlices(payload, got, count);
      SlicesRebuildPayload(payload);
    }
  }

  /** What push `n` returns in a fair run: the message of which it brings the last chunk that
      was pending. */
  function Due(sent: Catalogue, es: seq<Arrival>, n: nat): Option<seq<byte>>
    requires n < |es|
  {
    match es[n].header
    case None => None
    case Some(env) =>
      if env.id in sent && Pending(sent, es, n, env.id) + {env.index} == Whole(sent, env.id)
      then Some(sent[env.id])
      else None
  }

  /** Filing a chunk changes at most the entry it belongs to, which goes once it is full. */
  lemma LookupAccept(open: Flight, env: Envelope, m: Entry, id: nat)
    requires DistinctIds(open) && Lookup(open, env.id) == Some(m) && m.count == env.count
    ensures var r := Accept(open, env).0;
            && DistinctIds(r)
            && (id != env.id ==> Lookup(r, id) == Lookup(open, id))
            && (id == env.id ==>
                  var got := m.got[env.index := env.payload];
                  Lookup(r, id) ==
                  if env.index in m.got then Some(m)
                  else if Full(got, m.count) then None
                  else Some(m.(got := got)))
  {
    var i := Position(open, env.id);
    var r := Accept(open, env).0;
    var got := m.got[env.index := env.payload];
    if env.index !in m.got {
      if Full(got, m.count) {
        KeepExact(open, (x: Entry) => x.id != env.id);
        if Has(r, id) {
          LookupMember(open, r[Position(r, id)]);
          assert r[Position(r, id)] in r;
        }
        if Has(open, id) && id != env.id {
          LookupMember(r, open[Position(open, id)]);
          assert open[Position(open, id)] in open;
        }
      } else {
        assert forall j :: 0 <= j < |open| ==> r[j].id == open[j].id;
        assert Has(r, id) <==> Has(open, id) by {
          if Has(open, id) { assert r[Position(open, id)].id == id; }
          if Has(r, id) { assert open[Position(r, id)].id == id; }
        }
      }
    }
  }

  lemma OpenedLookup(f: Flight, m: Entry, id: nat)
    requires DistinctIds(f)
    ensures var open := if Has(f, m.id) then f else f + [m];
            DistinctIds(open) && Lookup(open, id) == if id == m.id && !Has(f, id) then Some(m) else Lookup(f, id)
  {
    var open := if Has(f, m.id) then f else f + [m];
    if !Has(f, m.id) {
      assert open[|f|] == m;
      if Has(f, id) {
        assert open[Position(f, id)] == f[Position(f, id)];
      }
    }
  }

  /** The entry of the arriving message after its chunk is filed. */
  lemma Filed(sent: Catalogue, es: seq<Arrival>, n: nat, env: Envelope)
    requires n < |es| && Sendable(sent) && forall i :: 0 <= i < |es| ==> Traffic(sent, es[i])
    requires es[n].header == Some(env)
    ensures env.id in sent
    ensures var m := Found(sent, es, n, env);
            var got := m.got[env.index := env.payload];
            && m.count == env.count
            && (env.index in m.got ==> Awaited(sent, es, n + 1, env.id) == Some(m) && Due(sent, es, n) == None)
            && (env.index !in m.got && Full(got, m.count) ==>
                  Awaited(sent, es, n + 1, env.id) == None && Due(sent, es, n) == Some(Join(got, m.count)))
            && (env.index !in m.got && !Full(got, m.count) ==>
                  Awaited(sent, es, n + 1, env.id) == Some(m.(got := got)) && Due(sent, es, n) == None)
  {
    Touched(sent, es, n, env);
    PendingBounds(sent, es, n, env.id);
    var ks := Pending(sent, es, n, env.id);
    var m := Found(sent, es, n, env);
    SlicesFull(sent[env.id], ks + {env.index});
    if env.index in m.got {
      assert ks + {env.index} == ks;
      assert m.got[env.index := env.payload] == m.got;
    }
  }

  lemma StepTracks(sent: Catalogue, es: seq<Arrival>, n: nat, timeout: int)
    requires n < |es| && FairUpTo(sent, es, n + 1, timeout) && Tracks(sent, es, n, Run(es[..n], timeout))
    ensures Tracks(sent, es, n + 1, Run(es[..n + 1], timeout))
    ensures Output(es, n, timeout) == Due(sent, es, n)
  {
    var f := Run(es[..n], timeout);
    assert es[..n + 1] == es[..n] + [es[n]];
    PushSteps(es[..n], es[n], timeout);
    OpenedTracks(sent, es, n, timeout);
    match es[n].header
    case None =>
      forall id
        ensures Lookup(f, id) == Awaited(sent, es, n + 1, id)
      {
        Untouched(sent, es, n, id);
      }
    case Some(env) =>
      AcceptTracks(sent, es, n, f, env);
  }

  lemma AcceptTracks(sent: Catalogue, es: seq<Arrival>, n: nat, f: Flight, env: Envelope)
    requires n < |es| && Sendable(sent) && forall i :: 0 <= i < |es| ==> Traffic(sent, es[i])
    requires Tracks(sent, es, n, f)
    requires es[n].header == Some(env)
    ensures var open := if Has(f, env.id) then f else f + [Entry(env.id, env.count, map[], es[n].stamp)];
            && Has(open, env.id)
            && Tracks(sent, es, n + 1, Accept(open, env).0)
            && Accept(open, env).1 == Due(sent, es, n)
  {
    var blank := Entry(env.id, env.count, map[], es[n].stamp);
    var open := if Has(f, env.id) then f else f + [blank];
    Filed(sent, es, n, env);
    var m := Found(sent, es, n, env);
    assert BringsFor(es[n], env.id);
    assert env.id in Waiting(sent, es, n) <==> Pending(sent, es, n, env.id) != {};
    assert Lookup(f, env.id) == Awaited(sent, es, n, env.id);
    OpenedLookup(f, blank, env.id);
    assert Lookup(open, env.id) == Some(m);
    forall id
      ensures Lookup(Accept(open, env).0, id) == Awaited(sent, es, n + 1, id)
    {
      LookupAccept(open, env, m, id);
      OpenedLookup(f, blank, id);
      if id != env.id {
        Untouched(sent, es, n, id);
        assert Lookup(f, id) == Awaited(sent, es, n, id);
      }
    }
    LookupAccept(open, env, m, env.id);
  }

  /** In every state of a fair run the flight is exactly the messages with pending chunks, each
      holding the slices that came since it was last complete. */
  lemma {:induction false} RunTracks(sent: Catalogue, es: seq<Arrival>, n: nat, timeout: int)
    requires n <= |es| && FairUpTo(sent, es, n, timeout)
    ensures Tracks(sent, es, n, Run(es[..n], timeout))
  {
    if n > 0 {
      RunTracks(sent, es, n - 1, timeout);
      StepTracks(sent, es, n - 1, timeout);
    }
  }

  /** A push of a fair run returns a message if and only if it completes all chunks of it since
      it was last returned, and then it returns the payload that was packed. */
  lemma DeliveredIntact(sent: Catalogue, es: seq<Arrival>, n: nat, timeout: int)
    requires n < |es| && FairUpTo(sent, es, n + 1, timeout)
    ensures Output(es, n, timeout) == Due(sent, es, n)
  {
    RunTracks(sent, es, n, timeout);
    StepTracks(sent, es, n, timeout);
  }

  // ---- How often --------------------------------------------------------------------------

  /** Push `n` returns the message `id`. */
  predicate Delivers(es: seq<Arrival>, n: nat, id: nat, timeout: int) {
    n < |es| && BringsFor(es[n], id) && Output(es, n, timeout).Some?
  }

  /** The pushes from `b` on bring all chunks of `id` with push `n`, and not before. */
  predicate Covers(sent: Catalogue, es: seq<Arrival>, b: nat, n: nat, id: nat)
    requires id in sent
  {
    b <= n < |es| && Seen(es, b, n, id) != Whole(sent, id) && Seen(es, b, n + 1, id) == Whole(sent, id)
  }

  lemma {:induction false} SeenGrows(es: seq<Arrival>, b: nat, n: nat, k: nat, id: nat)
    requires n <= k <= |es|
    ensures Seen(es, b, n, id) <= Seen(es, b, k, id)
  {
    if n < k {
      SeenGrows(es, b, n, k - 1, id);
    }
  }

  lemma {:induction false} SeenBounds(sent: Catalogue, es: seq<Arrival>, b: nat, n: nat, id: nat)
    requires n <= |es| && Sendable(sent) && forall i :: 0 <= i < |es| ==> Traffic(sent, es[i])
    requires id in sent
    ensures Seen(es, b, n, id) <= Whole(sent, id)
  {
    if n > b {
      SeenBounds(sent, es, b, n - 1, id);
      ChunkOf(sent, es[n - 1]);
    }
  }

  /** While the pushes since `b` have not brought everything, they are what is pending. */
  lemma {:induction false} PendingIsSeen(sent: Catalogue, es: seq<Arrival>, b: nat, n: nat, id: nat)
    requires Sendable(sent) && forall i :: 0 <= i < |es| ==> Traffic(sent, es[i])
    requires b <= n <= |es| && id in sent && Pending(sent, es, b, id) == {}
    requires Seen(es, b, n, id) != Whole(sent, id)
    ensures Pending(sent, es, n, id) == Seen(es, b, n, id)
  {
    if b < n {
      SeenBounds(sent, es, b, n, id);
      SeenGrows(es, b, n - 1, n, id);
      PendingIsSeen(sent, es, b, n - 1, id);
    }
  }

  /** Until the pushes since `b` have brought everything, none of them returns the message. */
  lemma NotBeforeCover(sent: Catalogue, es: seq<Arrival>, b: nat, n: nat, k: nat, id: nat, timeout: int)
    requires Fair(sent, es, timeout) && id in sent && b <= k < n <= |es|
    requires Pending(sent, es, b, id) == {} && Seen(es, b, n, id) != Whole(sent, id)
    ensures !Delivers(es, k, id, timeout)
  {
    SeenBounds(sent, es, b, n, id);
    SeenGrows(es, b, k, n, id);
    SeenGrows(es, b, k + 1, n, id);
    PendingIsSeen(sent, es, b, k, id);
    DeliveredIntact(sent, es, k, timeout);
  }

  /** The push with which they have brought everything returns it. */
  lemma CoverDelivers(sent: Catalogue, es: seq<Arrival>, b: nat, n: nat, id: nat, timeout: int)
    requires Fair(sent, es, timeout) && id in sent && Covers(sent, es, b, n, id) && Pending(sent, es, b, id) == {}
    ensures Delivers(es, n, id, timeout) && Output(es, n, timeout) == Some(sent[id])
    ensures Pending(sent, es, n + 1, id) == {}
  {
    PendingIsSeen(sent, es, b, n, id);
    DeliveredIntact(sent, es, n, timeout);
  }

  lemma {:induction false} CoverAt(sent: Catalogue, es: seq<Arrival>, b: nat, n: nat, id: nat) returns (k: nat)
    requires n <= |es| && id in sent && Seen(es, b, n, id) == Whole(sent, id)
    ensures k < n && Covers(sent, es, b, k, id)
  {
    assert 0 in Whole(sent, id);
    if Seen(es, b, n - 1, id) == Whole(sent, id) {
      k := CoverAt(sent, es, b, n - 1, id);
    } else {
      k := n - 1;
    }
  }

  /** Once all chunks have come, with push `n`, the message is returned by that push, as it was
      packed, and by no other push, unless the later ones bring all its chunks again. */
  lemma DeliveredOnce(sent: Catalogue, es: seq<Arrival>, timeout: int, id: nat, n: nat)
    requires Fair(sent, es, timeout) && id in sent && Covers(sent, es, 0, n, id)
    requires Seen(es, n + 1, |es|, id) != Whole(sent, id)
    ensures Output(es, n, timeout) == Some(sent[id])
    ensures forall k :: Delivers(es, k, id, timeout) <==> k == n
  {
    CoverDelivers(sent, es, 0, n, id, timeout);
    forall k: nat | k != n
      ensures !Delivers(es, k, id, timeout)
    {
      if k < n {
        NotBeforeCover(sent, es, 0, n, k, id, timeout);
      } else if k < |es| {
        NotBeforeCover(sent, es, n + 1, |es|, k, id, timeout);
      }
    }
  }

  /** Late duplicates that bring all chunks again have the message returned again. */
  lemma LateDuplicatesRedeliver(sent: Catalogue, es: seq<Arrival>, timeout: int, id: nat, n: nat) returns (k: nat)
    requires Fair(sent, es, timeout) && id in sent && Covers(sent, es, 0, n, id)
    requires Seen(es, n + 1, |es|, id) == Whole(sent, id)
    ensures n < k && Delivers(es, n, id, timeout) && Delivers(es, k, id, timeout)
    ensures Output(es, n, timeout) == Output(es, k, timeout) == Some(sent[id])
  {
    CoverDelivers(sent, es, 0, n, id, timeout);
    k := CoverAt(sent, es, n + 1, |es|, id);
    CoverDelivers(sent, es, n + 1, k, id, timeout);
  }

  /** A message that is still short of a chunk is never returned. */
  lemma NeverDeliveredEarly(sent: Catalogue, es: seq<Arrival>, timeout: int, id: nat, n: nat)
    requires Fair(sent, es, timeout) && id in sent && Seen(es, 0, |es|, id) != Whole(sent, id)
    ensures !Delivers(es, n, id, timeout)
  {
    if n < |es| {
      NotBeforeCover(sent, es, 0, |es|, n, id, timeout);
    }
  }

  ghost predicate OnlyDelivery(es: seq<Arrival>, n: nat, id: nat, timeout: int) {
    Delivers(es, n, id, timeout) && forall k: nat :: Delivers(es, k, id, timeout) ==> k == n
  }

  /** All chunks came, and those after the push that made them complete are not complete again. */
  predicate CoversOnce(sent: Catalogue, es: seq<Arrival>, n: nat, id: nat)
    requires id in sent
  {
    Covers(sent, es, 0, n, id) && Seen(es, n + 1, |es|, id) != Whole(sent, id)
  }

  /** Exactly once, exactly then: whatever is repeated, late or not. */
  lemma DeliveredOnceIff(sent: Catalogue, es: seq<Arrival>, timeout: int, id: nat)
    requires Fair(sent, es, timeout) && id in sent
    ensures (exists n: nat :: OnlyDelivery(es, n, id, timeout)) <==> (exists n: nat :: CoversOnce(sent, es, n, id))
  {
    if n: nat :| CoversOnce(sent, es, n, id) {
      DeliveredOnce(sent, es, timeout, id, n);
      assert OnlyDelivery(es, n, id, timeout);
    }
    if n: nat :| OnlyDelivery(es, n, id, timeout) {
      if Seen(es, 0, |es|, id) != Whole(sent, id) {
        NeverDeliveredEarly(sent, es, timeout, id, n);
      } else {
        var first := CoverAt(sent, es, 0, |es|, id);
        if Seen(es, first + 1, |es|, id) == Whole(sent, id) {
          var again := LateDuplicatesRedeliver(sent, es, timeout, id, first);
          assert false;
        }
        assert CoversOnce(sent, es, first, id);
      }
    }
  }
}
