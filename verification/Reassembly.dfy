/** The reassembler seen from outside: a list of unfinished messages, oldest first, each
    with the payloads received so far. The class in ChunkReassembler.dfy refines this
    machine; everything here speaks about all of its runs. */
module Reassembly {
  import opened Common
  import opened Framing

  const MAX_IN_FLIGHT: nat := 16

  datatype Entry = Entry(id: nat, count: nat, got: map<nat, seq<byte>>, since: int)

  type Flight = seq<Entry>

  /** One call of PushChunk: what the header checks make of the buffer, the clock as read by
      the eviction pass, and the clock as read when an entry is opened. */
  datatype Arrival = Arrival(header: Option<Envelope>, now: int, stamp: int)

  predicate Has(f: Flight, id: nat) {
    exists i :: 0 <= i < |f| && f[i].id == id
  }

  function Position(f: Flight, id: nat): (i: nat)
    requires Has(f, id)
    ensures i < |f| && f[i].id == id
  {
    if f[0].id == id then 0
    else
      assert Has(f[1..], id) by {
        var i :| 0 <= i < |f| && f[i].id == id;
        assert f[1..][i - 1].id == id;
      }
      1 + Position(f[1..], id)
  }

  /** The entries that satisfy `p`, in the same order. */
  function Keep(f: Flight, p: Entry -> bool): Flight {
    if f == [] then []
    else if p(f[0]) then [f[0]] + Keep(f[1..], p)
    else Keep(f[1..], p)
  }

  function DropExpired(f: Flight, now: int, timeout: int): Flight {
    Keep(f, (m: Entry) => now - m.since <= timeout)
  }

  function Without(f: Flight, id: nat): Flight {
    Keep(f, (m: Entry) => m.id != id)
  }

  /** Cap eviction gives up the front entry when all places are taken. */
  function MakeRoom(f: Flight): Flight {
    if |f| < MAX_IN_FLIGHT then f else f[1..]
  }

  function Opened(f: Flight, e: Envelope, stamp: int): (r: Flight)
    ensures Has(r, e.id)
  {
    if Has(f, e.id) then f
    else
      var r := MakeRoom(f) + [Entry(e.id, e.count, map[], stamp)];
      assert r[|r| - 1].id == e.id;
      r
  }

  /** The received payloads 0..n in index order. */
  function Join(got: map<nat, seq<byte>>, n: nat): seq<byte>
    requires forall k: nat :: k < n ==> k in got
  {
    if n == 0 then [] else Join(got, n - 1) + got[n - 1]
  }

  predicate Full(got: map<nat, seq<byte>>, count: nat) {
    forall k: nat :: k < count ==> k in got
  }

  function Accept(f: Flight, e: Envelope): (Flight, Option<seq<byte>>)
    requires Has(f, e.id)
  {
    var i := Position(f, e.id);
    var m := f[i];
    if m.count != e.count || e.index in m.got then (f, None)
    else
      var got := m.got[e.index := e.payload];
      if Full(got, m.count) then (Without(f, e.id), Some(Join(got, m.count)))
      else (f[i := m.(got := got)], None)
  }

  function Step(f: Flight, e: Arrival, timeout: int): (Flight, Option<seq<byte>>) {
    var live := DropExpired(f, e.now, timeout);
    match e.header
    case None => (live, None)
    case Some(env) => Accept(Opened(live, env, e.stamp), env)
  }

  function Run(es: seq<Arrival>, timeout: int): Flight {
    if es == [] then [] else Step(Run(es[..|es| - 1], timeout), es[|es| - 1], timeout).0
  }

  /** What the n-th push returns. */
  function Output(es: seq<Arrival>, n: nat, timeout: int): Option<seq<byte>>
    requires n < |es|
  {
    Step(Run(es[..n], timeout), es[n], timeout).1
  }

  lemma RunExtends(es: seq<Arrival>, e: Arrival, timeout: int)
    ensures Run(es + [e], timeout) == Step(Run(es, timeout), e, timeout).0
    ensures Output(es + [e], |es|, timeout) == Step(Run(es, timeout), e, timeout).1
  {
    assert (es + [e])[..|es|] == es;
  }

  // ---- What every state keeps ------------------------------------------------------

  predicate DistinctIds(f: Flight) {
    forall i, j :: 0 <= i < j < |f| ==> f[i].id != f[j].id
  }

  predicate OldestFirst(f: Flight) {
    forall i, j :: 0 <= i < j < |f| ==> f[i].since <= f[j].since
  }

  /** An unfinished message: some chunk of it is still missing, none is out of range. */
  predicate Unfinished(m: Entry) {
    && 1 <= m.count <= MAX_CHUNKS
    && (forall k :: k in m.got ==> k < m.count)
    && !Full(m.got, m.count)
  }

  predicate Inv(f: Flight, clock: int) {
    && DistinctIds(f) && OldestFirst(f) && |f| <= MAX_IN_FLIGHT
    && forall m :: m in f ==> Unfinished(m) && m.since <= clock
  }

  /** The clock does not go back, and accepted headers passed the checks. */
  predicate Proper(es: seq<Arrival>) {
    && (forall i :: 0 <= i < |es| && es[i].header.Some? ==> WellFormed(es[i].header.value))
    && (forall i :: 0 <= i < |es| ==> es[i].now <= es[i].stamp)
    && (forall i, j :: 0 <= i < j < |es| ==> es[i].stamp <= es[j].now)
  }

  lemma {:induction false} KeepExact(f: Flight, p: Entry -> bool)
    ensures forall m :: m in Keep(f, p) <==> m in f && p(m)
    ensures |Keep(f, p)| <= |f|
    ensures DistinctIds(f) ==> DistinctIds(Keep(f, p))
    ensures OldestFirst(f) ==> OldestFirst(Keep(f, p))
  {
    if f != [] {
      KeepExact(f[1..], p);
      assert f == [f[0]] + f[1..];
      var rest := Keep(f[1..], p);
      if p(f[0]) {
        forall j | 0 < j < |rest| + 1
          ensures DistinctIds(f) ==> f[0].id != Keep(f, p)[j].id
          ensures OldestFirst(f) ==> f[0].since <= Keep(f, p)[j].since
        {
          assert Keep(f, p)[j] == rest[j - 1] && rest[j - 1] in f[1..];
        }
      }
    }
  }

  /** After the eviction pass exactly the entries within the timeout survive. */
  lemma ExpiryIsExact(f: Flight, now: int, timeout: int)
    ensures forall m :: m in DropExpired(f, now, timeout) <==> m in f && now - m.since <= timeout
  {
    KeepExact(f, (m: Entry) => now - m.since <= timeout);
  }

  /** The entry the cap gives up is one of the oldest, and it goes exactly when a new
      message finds every place taken. */
  lemma CapEvictsOldest(f: Flight, clock: int, e: Envelope, stamp: int)
    requires Inv(f, clock)
    ensures !Has(f, e.id) && |f| == MAX_IN_FLIGHT ==>
              && f[0] !in Opened(f, e, stamp)
              && (forall m :: m in f ==> f[0].since <= m.since)
              && (forall m :: m in f && m != f[0] ==> m in Opened(f, e, stamp))
    ensures Has(f, e.id) || |f| < MAX_IN_FLIGHT ==> forall m :: m in f ==> m in Opened(f, e, stamp)
  {
    if !Has(f, e.id) && |f| == MAX_IN_FLIGHT {
      var r := Opened(f, e, stamp);
      assert f == [f[0]] + f[1..];
      assert forall m :: m in r <==> m in f[1..] || m == r[|r| - 1];
      assert forall j :: 0 < j < |f| ==> f[1..][j - 1] == f[j];
    }
  }

  lemma RoomLacks(f: Flight, id: nat)
    requires !Has(f, id)
    ensures forall m :: m in MakeRoom(f) ==> m in f && m.id != id
  {
    var kept := MakeRoom(f);
    assert forall i :: 0 <= i < |kept| ==> kept[i] == f[if |f| < MAX_IN_FLIGHT then i else i + 1];
  }

  lemma RoomInv(f: Flight, clock: int)
    requires Inv(f, clock)
    ensures Inv(MakeRoom(f), clock) && |MakeRoom(f)| < MAX_IN_FLIGHT
  {
    hide Unfinished;
  }

  /** A new, empty entry at the end. */
  lemma AppendedInv(f: Flight, clock: int, m: Entry)
    requires Inv(f, clock) && |f| < MAX_IN_FLIGHT && clock <= m.since
    requires (forall x :: x in f ==> x.id != m.id) && 1 <= m.count <= MAX_CHUNKS && m.got == map[]
    ensures Inv(f + [m], m.since)
  {
    assert Unfinished(m) by {
      assert 0 !in m.got;
    }
    hide Unfinished;
    assert forall i :: 0 <= i < |f| ==> f[i] in f;
  }

  lemma OpenedInv(f: Flight, clock: int, e: Envelope, stamp: int)
    requires Inv(f, clock) && clock <= stamp
    requires 1 <= e.count <= MAX_CHUNKS
    ensures Inv(Opened(f, e, stamp), stamp)
  {
    if !Has(f, e.id) {
      RoomLacks(f, e.id);
      RoomInv(f, clock);
      AppendedInv(MakeRoom(f), clock, Entry(e.id, e.count, map[], stamp));
    }
  }

  lemma AcceptInv(f: Flight, e: Envelope, clock: int)
    requires Inv(f, clock) && Has(f, e.id)
    requires e.index < e.count
    ensures Inv(Accept(f, e).0, clock)
  {
    var i := Position(f, e.id);
    var m := f[i];
    if m.count == e.count && e.index !in m.got {
      var got := m.got[e.index := e.payload];
      KeepExact(f, (n: Entry) => n.id != e.id);
      if !Full(got, m.count) {
        var r := f[i := m.(got := got)];
        forall n | n in r
          ensures Unfinished(n) && n.since <= clock
        {
          assert n == m.(got := got) || n in f;
        }
      }
    }
  }

  lemma StepInv(f: Flight, e: Arrival, timeout: int, clock: int)
    requires Inv(f, clock) && clock <= e.now <= e.stamp
    requires e.header.Some? ==> WellFormed(e.header.value)
    ensures Inv(Step(f, e, timeout).0, e.stamp)
  {
    var live := DropExpired(f, e.now, timeout);
    KeepExact(f, (m: Entry) => e.now - m.since <= timeout);
    assert Inv(live, clock);
    match e.header
    case None =>
    case Some(env) =>
      OpenedInv(live, clock, env, e.stamp);
      AcceptInv(Opened(live, env, e.stamp), env, e.stamp);
  }

  /** Every reachable state, for arbitrary buffers and any clock that does not go back. */
  lemma {:induction false} RunInv(es: seq<Arrival>, timeout: int, clock: int)
    requires Proper(es)
    requires es != [] ==> es[|es| - 1].stamp <= clock
    ensures Inv(Run(es, timeout), clock)
  {
    if es != [] {
      var e := es[|es| - 1];
      var before := es[..|es| - 1];
      RunInv(before, timeout, e.now);
      StepInv(Run(before, timeout), e, timeout, e.now);
    }
  }

  /** The parts of one step, as PushChunk carries them out. */
  lemma PushSteps(es: seq<Arrival>, e: Arrival, timeout: int)
    requires Proper(es) && e.now <= e.stamp
    requires e.header.Some? ==> WellFormed(e.header.value)
    requires es != [] ==> es[|es| - 1].stamp <= e.now
    ensures Proper(es + [e])
    ensures var live := DropExpired(Run(es, timeout), e.now, timeout);
            match e.header
            case None => Run(es + [e], timeout) == live && Output(es + [e], |es|, timeout) == None
            case Some(env) =>
              && 1 <= env.count <= MAX_CHUNKS && env.index < env.count
              && DistinctIds(Opened(live, env, e.stamp))
              && (Run(es + [e], timeout), Output(es + [e], |es|, timeout)) == Accept(Opened(live, env, e.stamp), env)
  {
    hide Run, Output, Accept, Opened, Unfinished, OldestFirst;
    RunExtends(es, e, timeout);
    RunInv(es, timeout, e.now);
    var f := Run(es, timeout);
    KeepExact(f, (m: Entry) => e.now - m.since <= timeout);
    match e.header
    case None =>
    case Some(env) =>
      OpenedInv(DropExpired(f, e.now, timeout), e.now, env, e.stamp);
  }
}
