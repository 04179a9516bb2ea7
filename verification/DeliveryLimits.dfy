/** What the cap and the timeout cost: exactly when packed traffic loses a message, which one it
    loses, and what has to come again before that message is returned. */
module DeliveryLimits {
  import opened Common
  import opened Framing
  import opened Reassembly
  import opened ReassemblyHistory
  import opened Delivery

  // ---- The order of the flight ------------------------------------------------------------

  ghost predicate Related(f: Flight, r: (nat, nat) -> bool) {
    forall i, j :: 0 <= i < j < |f| ==> r(f[i].id, f[j].id)
  }

  lemma {:induction false} KeepRelated(f: Flight, p: Entry -> bool, r: (nat, nat) -> bool)
    requires Related(f, r)
    ensures Related(Keep(f, p), r)
  {
    if f != [] {
      KeepRelated(f[1..], p, r);
      KeepExact(f[1..], p);
      var rest := Keep(f[1..], p);
      forall j | 0 <= j < |rest|
        ensures r(f[0].id, rest[j].id)
      {
        assert rest[j] in f[1..];
      }
    }
  }

  lemma AcceptRelated(f: Flight, e: Envelope, r: (nat, nat) -> bool)
    requires Has(f, e.id) && Related(f, r)
    ensures Related(Accept(f, e).0, r)
  {
    KeepRelated(f, (m: Entry) => m.id != e.id, r);
  }

  /** The place of a message in the queue before push `n`, and of one that it opens. */
  function Rank(sent: Catalogue, es: seq<Arrival>, n: nat, id: nat): nat
    requires n <= |es|
  {
    if id in Waiting(sent, es, n) then Opening(sent, es, n, id) else n
  }

  ghost predicate InOrder(sent: Catalogue, es: seq<Arrival>, n: nat, f: Flight)
    requires n <= |es|
  {
    Related(f, (a: nat, b: nat) => Rank(sent, es, n, a) < Rank(sent, es, n, b))
  }

  lemma RankStays(sent: Catalogue, es: seq<Arrival>, n: nat, id: nat)
    requires n < |es| && id in Waiting(sent, es, n + 1)
    ensures Rank(sent, es, n + 1, id) == Rank(sent, es, n, id)
  {
  }

  lemma AppendRelated(f: Flight, m: Entry, r: (nat, nat) -> bool)
    requires Related(f, r) && forall i :: 0 <= i < |f| ==> r(f[i].id, m.id)
    ensures Related(f + [m], r)
  {
  }

  /** An opened entry goes to the end, behind everything that waits. */
  lemma RanksBelow(sent: Catalogue, es: seq<Arrival>, n: nat, f: Flight, id: nat)
    requires n <= |es| && Tracks(sent, es, n, f)
    ensures forall i :: 0 <= i < |f| ==> Rank(sent, es, n, f[i].id) < n
    ensures !Has(f, id) ==> Rank(sent, es, n, id) == n
  {
    hide Has, Tracks, Pending, EntryFor, Waiting;
    TrackedAreWaiting(sent, es, n, f);
    forall i | 0 <= i < |f|
      ensures Rank(sent, es, n, f[i].id) < n
    {
      assert f[i] in f;
    }
  }

  /** What the next push of packed traffic may rely on. */
  lemma PackedParts(sent: Catalogue, es: seq<Arrival>, n: nat)
    requires n < |es| && Packed(sent, es)
    ensures Proper(es[..n]) && es[n].now <= es[n].stamp
    ensures es[n].header.Some? ==> WellFormed(es[n].header.value)
    ensures n > 0 ==> es[..n][n - 1].stamp <= es[n].now
  {
  }

  lemma PushRelated(sent: Catalogue, es: seq<Arrival>, n: nat, timeout: int)
    requires n < |es| && FairUpTo(sent, es, n + 1, timeout) && InOrder(sent, es, n, Run(es[..n], timeout))
    ensures InOrder(sent, es, n, Run(es[..n + 1], timeout))
  {
    hide Packed, FitsCap, InTime, Proper, Tracks, Rank, Accept, Has, Related, Run, Output, Opened;
    hide WellFormed, DistinctIds, DropExpired, Keep, Position, Waiting, Pending, Awaited, Lookup, ChunkCount;
    var f := Run(es[..n], timeout);
    PackedParts(sent, es, n);
    RunTracks(sent, es, n, timeout);
    OpenedTracks(sent, es, n, timeout);
    assert es[..n + 1] == es[..n] + [es[n]];
    PushSteps(es[..n], es[n], timeout);
    match es[n].header
    case None =>
    case Some(env) =>
      var r := (a: nat, b: nat) => Rank(sent, es, n, a) < Rank(sent, es, n, b);
      RanksBelow(sent, es, n, f, env.id);
      if !Has(f, env.id) {
        AppendRelated(f, Entry(env.id, env.count, map[], es[n].stamp), r);
      }
      AcceptRelated(Opened(f, env, es[n].stamp), env, r);
  }

  lemma OrderStep(sent: Catalogue, es: seq<Arrival>, n: nat, timeout: int)
    requires n < |es| && FairUpTo(sent, es, n + 1, timeout) && InOrder(sent, es, n, Run(es[..n], timeout))
    ensures InOrder(sent, es, n + 1, Run(es[..n + 1], timeout))
  {
    hide Run, FitsCap, InTime, Rank, Waiting, Packed;
    var g := Run(es[..n + 1], timeout);
    PushRelated(sent, es, n, timeout);
    RunTracks(sent, es, n + 1, timeout);
    TrackedAreWaiting(sent, es, n + 1, g);
    forall i, j | 0 <= i < j < |g|
      ensures Rank(sent, es, n + 1, g[i].id) < Rank(sent, es, n + 1, g[j].id)
    {
      assert g[i] in g && g[j] in g;
      RankStays(sent, es, n, g[i].id);
      RankStays(sent, es, n, g[j].id);
    }
  }

  /** As long as nothing is lost, the flight lists the waiting messages in the order in which
      they began to wait. */
  lemma {:induction false} FlightInOrder(sent: Catalogue, es: seq<Arrival>, n: nat, timeout: int)
    requires n <= |es| && FairUpTo(sent, es, n, timeout)
    ensures InOrder(sent, es, n, Run(es[..n], timeout))
  {
    if n > 0 {
      FlightInOrder(sent, es, n - 1, timeout);
      OrderStep(sent, es, n - 1, timeout);
    }
  }

  // ---- Too many messages ------------------------------------------------------------------

  lemma {:induction false} FlightCovers(f: Flight, ids: set<nat>)
    requires forall id :: id in ids ==> Has(f, id)
    ensures |ids| <= |f|
  {
    if f == [] {
      assert forall id :: id in ids ==> Has(f, id);
      assert ids == {};
    } else {
      var others := ids - {f[0].id};
      forall id | id in others
        ensures Has(f[1..], id)
      {
        var i :| 0 <= i < |f| && f[i].id == id;
        assert f[1..][i - 1].id == id;
      }
      FlightCovers(f[1..], others);
      assert |ids| <= |others + {f[0].id}| by { SubsetSize(ids, others + {f[0].id}); }
    }
  }

  lemma {:induction false} KeepAppend(f: Flight, m: Entry, p: Entry -> bool)
    ensures Keep(f + [m], p) == Keep(f, p) + if p(m) then [m] else []
  {
    if f == [] {
      assert f + [m] == [m] && [m][1..] == [];
    } else {
      assert (f + [m])[1..] == f[1..] + [m];
      KeepAppend(f[1..], m, p);
    }
  }

  /** One chunk is everything if and only if there is only one. */
  lemma OneChunkFull(env: Envelope)
    requires env.index < env.count
    ensures var got: map<nat, seq<byte>> := map[env.index := env.payload];
            && (Full(got, env.count) <==> env.count == 1)
            && (env.count == 1 ==> Join(got, env.count) == env.payload)
  {
    var got: map<nat, seq<byte>> := map[env.index := env.payload];
    if env.count == 1 {
      assert Join(got, 1) == Join(got, 0) + got[0];
    } else {
      assert (if env.index == 0 then 1 else 0) !in got;
    }
  }

  /** Filing a chunk under an entry that was just opened. */
  lemma AcceptFresh(f: Flight, env: Envelope, m: Entry)
    requires !Has(f, env.id) && m.id == env.id && m.count == env.count && m.got == map[] && env.index < env.count
    ensures Has(f + [m], env.id)
    ensures Accept(f + [m], env) ==
            if env.count == 1 then (f, Some(env.payload))
            else (f + [m.(got := map[env.index := env.payload])], None)
  {
    var open := f + [m];
    assert open[|f|].id == env.id;
    var i := Position(open, env.id);
    assert forall j :: 0 <= j < |f| ==> open[j].id == f[j].id != env.id;
    assert i == |f|;
    var got := m.got[env.index := env.payload];
    assert got == map[env.index := env.payload];
    OneChunkFull(env);
    if env.count == 1 {
      KeepAppend(f, m, (x: Entry) => x.id != env.id);
      forall x | x in f
        ensures x.id != env.id
      {
        var j :| 0 <= j < |f| && f[j] == x;
      }
      KeepAll(f, (x: Entry) => x.id != env.id);
      assert Without(open, env.id) == f + [];
      assert f + [] == f;
    } else {
      assert open[|f| := m.(got := got)] == f + [m.(got := got)];
    }
  }

  function FirstChunk(env: Envelope, stamp: int): Entry {
    Entry(env.id, env.count, map[env.index := env.payload], stamp)
  }

  /** A push whose message is not in flight after the eviction pass. */
  lemma PushNew(es: seq<Arrival>, n: nat, env: Envelope, timeout: int)
    requires n < |es| && es[n].header == Some(env) && env.index < env.count
    requires !Has(DropExpired(Run(es[..n], timeout), es[n].now, timeout), env.id)
    ensures var room := MakeRoom(DropExpired(Run(es[..n], timeout), es[n].now, timeout));
            (Run(es[..n + 1], timeout), Output(es, n, timeout)) ==
            if env.count == 1 then (room, Some(env.payload)) else (room + [FirstChunk(env, es[n].stamp)], None)
  {
    var live := DropExpired(Run(es[..n], timeout), es[n].now, timeout);
    assert es[..n + 1] == es[..n] + [es[n]];
    RunExtends(es[..n], es[n], timeout);
    var room := MakeRoom(live);
    RoomLacks(live, env.id);
    assert forall i :: 0 <= i < |room| ==> room[i] in room;
    AcceptFresh(room, env, Entry(env.id, env.count, map[], es[n].stamp));
  }

  lemma PrefixProper(es: seq<Arrival>, n: nat)
    requires n < |es| && Proper(es)
    ensures Proper(es[..n]) && (n > 0 ==> es[..n][n - 1].stamp <= es[n].now)
  {
  }

  /** A push that does not fit finds sixteen entries and brings a seventeenth message. */
  lemma MisfitFindsSixteen(sent: Catalogue, es: seq<Arrival>, n: nat, timeout: int)
    requires n < |es| && FairUpTo(sent, es, n, timeout) && !FitsCap(sent, es, n)
    ensures var f := Run(es[..n], timeout);
            |f| == MAX_IN_FLIGHT && es[n].header.Some? && !Has(f, es[n].header.value.id)
  {
    hide Has, Run, Waiting, Tracks, DistinctIds, OldestFirst, Unfinished, InTime, Traffic;
    var f, ids := Run(es[..n], timeout), Waiting(sent, es, n);
    PrefixProper(es, n);
    RunTracks(sent, es, n, timeout);
    TrackedAreWaiting(sent, es, n, f);
    FlightCovers(f, ids);
    RunInv(es[..n], timeout, es[n].now);
    var id := es[n].header.value.id;
    assert id in ids ==> ids + {id} == ids;
    assert id !in ids ==> |ids + {id}| == |ids| + 1;
  }

  lemma LookupTail(f: Flight, id: nat)
    requires DistinctIds(f) && f != []
    ensures DistinctIds(f[1..]) && Lookup(f[1..], id) == if id == f[0].id then None else Lookup(f, id)
  {
    if Has(f, id) && id != f[0].id {
      var i := Position(f, id);
      assert f[1..][i - 1] == f[i];
    }
    if Has(f[1..], id) {
      assert f[Position(f[1..], id) + 1] == f[1..][Position(f[1..], id)];
    }
  }

  lemma LookupAppended(f: Flight, m: Entry, id: nat)
    requires DistinctIds(f) && !Has(f, m.id)
    ensures DistinctIds(f + [m]) && Lookup(f + [m], id) == if id == m.id then Some(m) else Lookup(f, id)
  {
    OpenedLookup(f, m, id);
  }

  ghost predicate TracksOthers(sent: Catalogue, es: seq<Arrival>, n: nat, f: Flight, lost: nat)
    requires n <= |es|
  {
    forall id :: id != lost ==> Lookup(f, id) == Awaited(sent, es, n, id)
  }

  /** What the flight holds when its first entry has made room for a new message. */
  lemma LookupReplaced(sent: Catalogue, es: seq<Arrival>, n: nat, f: Flight, env: Envelope, id: nat)
    requires n < |es| && Packed(sent, es) && Tracks(sent, es, n, f) && f != []
    requires es[n].header == Some(env) && !Has(f, env.id)
    ensures var g := if env.count == 1 then f[1..] else f[1..] + [FirstChunk(env, es[n].stamp)];
            Lookup(g, id) == if id == f[0].id then None else Awaited(sent, es, n + 1, id)
  {
    hide Has, Lookup, Awaited, Packed;
    LookupTail(f, id);
    LookupTail(f, env.id);
    assert Lookup(f, id) == Awaited(sent, es, n, id) && Lookup(f, env.id) == Awaited(sent, es, n, env.id);
    NotWaiting(sent, es, n, f, env.id);
    NewAlone(sent, es, n, env);
    if env.count > 1 {
      LookupAppended(f[1..], FirstChunk(env, es[n].stamp), id);
    }
    if id != env.id {
      Untouched(sent, es, n, id);
    }
  }

  lemma NotWaiting(sent: Catalogue, es: seq<Arrival>, n: nat, f: Flight, id: nat)
    requires n <= |es| && Tracks(sent, es, n, f) && f != [] && !Has(f, id)
    ensures id !in Waiting(sent, es, n) && Lookup(f, id) == None && id != f[0].id
    ensures !Has(f[1..], id)
  {
    TrackedAreWaiting(sent, es, n, f);
    assert f[0] in f;
    LookupTail(f, id);
  }

  /** The first push that does not fit the cap costs one message its entry, although it still
      waits for chunks: the one that has waited longest. All others are as they should be, and
      the push itself returns what is due. */
  lemma CapCosts(sent: Catalogue, es: seq<Arrival>, n: nat, timeout: int) returns (lost: nat)
    requires n < |es| && FairUpTo(sent, es, n, timeout) && InTime(sent, es, n, timeout) && !FitsCap(sent, es, n)
    ensures lost in Waiting(sent, es, n)
    ensures forall id :: id in Waiting(sent, es, n) && id != lost ==>
              Opening(sent, es, n, lost) < Opening(sent, es, n, id)
    ensures Awaited(sent, es, n + 1, lost).Some? && !Has(Run(es[..n + 1], timeout), lost)
    ensures TracksOthers(sent, es, n + 1, Run(es[..n + 1], timeout), lost)
    ensures Output(es, n, timeout) == Due(sent, es, n)
  {
    hide Has, Run, Output, FitsCap, InTime, Opening, Proper, Traffic;
    var f := Run(es[..n], timeout);
    RunTracks(sent, es, n, timeout);
    MisfitFindsSixteen(sent, es, n, timeout);
    var env := es[n].header.value;
    NothingExpires(sent, es, n, timeout, f);
    ChunkOf(sent, es[n]);
    PushNew(es, n, env, timeout);
    NotWaiting(sent, es, n, f, env.id);
    NewAlone(sent, es, n, env);
    lost := f[0].id;
    LongestWaiting(sent, es, n, timeout);
    Untouched(sent, es, n, lost);
    var g, k := Run(es[..n + 1], timeout), n + 1;
    forall id
      ensures Lookup(g, id) == if id == lost then None else Awaited(sent, es, k, id)
    {
      LookupReplaced(sent, es, n, f, env, id);
    }
    assert Lookup(g, lost) == None;
    NoneIsAbsent(g, lost);
  }

  lemma NoneIsAbsent(f: Flight, id: nat)
    requires Lookup(f, id) == None
    ensures !Has(f, id)
  {
  }

  lemma LongestWaiting(sent: Catalogue, es: seq<Arrival>, n: nat, timeout: int)
    requires n <= |es| && FairUpTo(sent, es, n, timeout) && Run(es[..n], timeout) != []
    ensures var lost := Run(es[..n], timeout)[0].id;
            && lost in Waiting(sent, es, n)
            && forall id :: id in Waiting(sent, es, n) && id != lost ==>
                 Opening(sent, es, n, lost) < Opening(sent, es, n, id)
  {
    var f := Run(es[..n], timeout);
    RunTracks(sent, es, n, timeout);
    TrackedAreWaiting(sent, es, n, f);
    FlightInOrder(sent, es, n, timeout);
    assert f[0] in f;
    forall id | id in Waiting(sent, es, n) && id != f[0].id
      ensures Opening(sent, es, n, f[0].id) < Opening(sent, es, n, id)
    {
      var i :| 0 <= i < |f| && f[i].id == id;
      assert Rank(sent, es, n, f[0].id) < Rank(sent, es, n, f[i].id);
    }
  }

  /** A message that was not waiting is, after its first chunk, complete or waiting for the rest. */
  lemma NewAlone(sent: Catalogue, es: seq<Arrival>, n: nat, env: Envelope)
    requires n < |es| && Packed(sent, es) && es[n].header == Some(env) && env.id !in Waiting(sent, es, n)
    ensures env.id in sent && env.index < env.count
    ensures Awaited(sent, es, n + 1, env.id) == if env.count == 1 then None else Some(FirstChunk(env, es[n].stamp))
    ensures Due(sent, es, n) == if env.count == 1 then Some(env.payload) else None
  {
    hide Traffic, Proper, Sendable, Pending, EntryFor, Slice, Full, Join, Slices;
    ChunkOf(sent, es[n]);
    Filed(sent, es, n, env);
    var blank := Entry(env.id, env.count, map[], es[n].stamp);
    assert Found(sent, es, n, env) == blank;
    var got := blank.got[env.index := env.payload];
    assert got == map[env.index := env.payload];
    OneChunkFull(env);
  }

  // ---- Too late ---------------------------------------------------------------------------

  /** Push `b` finds nothing of the message. */
  predicate Absent(es: seq<Arrival>, b: nat, id: nat, timeout: int)
    requires b < |es|
  {
    !Has(DropExpired(Run(es[..b], timeout), es[b].now, timeout), id)
  }

  lemma StillAbsent(es: seq<Arrival>, b: nat, id: nat, timeout: int)
    requires b < |es| && !Has(Run(es[..b], timeout), id)
    ensures Absent(es, b, id, timeout)
  {
    var f := Run(es[..b], timeout);
    ExpiryIsExact(f, es[b].now, timeout);
    var live := DropExpired(f, es[b].now, timeout);
    forall i | 0 <= i < |live|
      ensures live[i].id != id
    {
      assert live[i] in live;
    }
  }

  lemma DropsOld(f: Flight, now: int, timeout: int, id: nat)
    requires DistinctIds(f) && Lookup(f, id).Some? && now - Lookup(f, id).value.since > timeout
    ensures !Has(DropExpired(f, now, timeout), id)
  {
    ExpiryIsExact(f, now, timeout);
    var live := DropExpired(f, now, timeout);
    if Has(live, id) {
      var m := live[Position(live, id)];
      assert m in live && m in f;
      LookupMember(f, m);
      assert false;
    }
  }

  lemma NoNewIds(live: Flight, env: Envelope, stamp: int, id: nat)
    requires id != env.id && Has(Accept(Opened(live, env, stamp), env).0, id)
    ensures Has(live, id)
  {
    var open := Opened(live, env, stamp);
    var r := Accept(open, env).0;
    KeepExact(open, (m: Entry) => m.id != env.id);
    var m := r[Position(r, id)];
    assert m in r && m in open;
    var i :| 0 <= i < |open| && open[i] == m;
    if !Has(live, env.id) {
      assert i < |MakeRoom(live)|;
      assert live[if |live| < MAX_IN_FLIGHT then i else i + 1] == m;
    }
  }

  lemma DroppedWhileWaiting(sent: Catalogue, es: seq<Arrival>, n: nat, timeout: int, lost: nat)
    requires n < |es| && FairUpTo(sent, es, n, timeout)
    requires lost in Waiting(sent, es, n) && es[n].now - Since(sent, es, n, lost) > timeout
    ensures Absent(es, n, lost, timeout) && Awaited(sent, es, n, lost).Some?
  {
    hide Packed, FitsCap, InTime, Proper, WellFormed, Run, Output, Accept, Opened, Full, Traffic;
    hide DropExpired, Opening;
    var f := Run(es[..n], timeout);
    RunTracks(sent, es, n, timeout);
    assert Lookup(f, lost) == Awaited(sent, es, n, lost);
    DropsOld(f, es[n].now, timeout, lost);
  }

  /** The first push that comes too late for a waiting message costs it its entry: what the
      flight holds of it afterwards, if anything, is at most the chunk of this very push. */
  lemma TimeoutCosts(sent: Catalogue, es: seq<Arrival>, n: nat, timeout: int, lost: nat)
    requires n < |es| && FairUpTo(sent, es, n, timeout) && timeout >= 0
    requires lost in Waiting(sent, es, n) && es[n].now - Since(sent, es, n, lost) > timeout
    ensures Absent(es, n, lost, timeout)
    ensures Lookup(Run(es[..n + 1], timeout), lost) != Awaited(sent, es, n + 1, lost)
    ensures Lookup(Run(es[..n + 1], timeout), lost).Some? ==> BringsFor(es[n], lost)
  {
    hide Packed, FitsCap, InTime, Proper, WellFormed, Run, Output, Accept, Opened, Full, Traffic;
    hide Tracks, DistinctIds, DropExpired, ChunkCount, Since, Opening, Has, Position, Pending, Waiting, Awaited;
    PackedParts(sent, es, n);
    var g := Run(es[..n + 1], timeout);
    var live := DropExpired(Run(es[..n], timeout), es[n].now, timeout);
    DroppedWhileWaiting(sent, es, n, timeout, lost);
    assert es[..n + 1] == es[..n] + [es[n]];
    PushSteps(es[..n], es[n], timeout);
    match es[n].header
    case None =>
      Untouched(sent, es, n, lost);
    case Some(env) =>
      if env.id != lost {
        Untouched(sent, es, n, lost);
        if Has(g, lost) {
          NoNewIds(live, env, es[n].stamp, lost);
        }
      } else {
        ReopenedDiffers(sent, es, n, timeout, env);
      }
  }

  /** If the late push brings a chunk of the message itself, the message starts anew with it. */
  lemma ReopenedDiffers(sent: Catalogue, es: seq<Arrival>, n: nat, timeout: int, env: Envelope)
    requires n < |es| && FairUpTo(sent, es, n, timeout) && timeout >= 0 && es[n].header == Some(env)
    requires env.id in Waiting(sent, es, n) && es[n].now - Since(sent, es, n, env.id) > timeout
    requires !Has(DropExpired(Run(es[..n], timeout), es[n].now, timeout), env.id)
    ensures Lookup(Run(es[..n + 1], timeout), env.id) != Awaited(sent, es, n + 1, env.id)
  {
    hide Run, Output, Has, Lookup, FitsCap, InTime, Traffic, ChunkCount, DropExpired;
    var live := DropExpired(Run(es[..n], timeout), es[n].now, timeout);
    ChunkOf(sent, es[n]);
    SeveralChunks(sent, es, n, env.id);
    PushNew(es, n, env, timeout);
    LiveIsDistinct(es, n, timeout);
    RoomIsDistinct(live, env.id);
    LookupAppended(MakeRoom(live), FirstChunk(env, es[n].stamp), env.id);
    if Awaited(sent, es, n + 1, env.id).Some? {
      RankStays(sent, es, n, env.id);
      assert Awaited(sent, es, n + 1, env.id).value.since < es[n].now;
    }
  }

  /** A message that waits has at least two chunks. */
  lemma SeveralChunks(sent: Catalogue, es: seq<Arrival>, n: nat, id: nat)
    requires n <= |es| && Packed(sent, es) && id in Waiting(sent, es, n)
    ensures ChunkCount(|sent[id]|) > 1
  {
    PendingBounds(sent, es, n, id);
    hide ChunkCount, Pending;
    var k :| k in Pending(sent, es, n, id);
    assert k in Whole(sent, id) && Pending(sent, es, n, id) != Whole(sent, id);
  }

  lemma LiveIsDistinct(es: seq<Arrival>, n: nat, timeout: int)
    requires n < |es| && Proper(es)
    ensures DistinctIds(DropExpired(Run(es[..n], timeout), es[n].now, timeout))
  {
    RunInv(es[..n], timeout, es[n].now);
    KeepExact(Run(es[..n], timeout), (m: Entry) => es[n].now - m.since <= timeout);
  }

  lemma RoomIsDistinct(live: Flight, id: nat)
    requires !Has(live, id) && DistinctIds(live)
    ensures !Has(MakeRoom(live), id) && DistinctIds(MakeRoom(live))
  {
    RoomLacks(live, id);
    assert forall i :: 0 <= i < |MakeRoom(live)| ==> MakeRoom(live)[i] in MakeRoom(live);
  }

  // ---- Exactly when nothing is lost -------------------------------------------------------

  lemma {:induction false} FirstMisfit(sent: Catalogue, es: seq<Arrival>, i: nat, timeout: int) returns (n: nat)
    requires Packed(sent, es) && i < |es| && !(FitsCap(sent, es, i) && InTime(sent, es, i, timeout))
    ensures n <= i && FairUpTo(sent, es, n, timeout)
    ensures !(FitsCap(sent, es, n) && InTime(sent, es, n, timeout))
  {
    hide FitsCap, InTime, Packed;
    n := 0;
    while n < i && FitsCap(sent, es, n) && InTime(sent, es, n, timeout)
      invariant n <= i && FairUpTo(sent, es, n, timeout)
    {
      n := n + 1;
    }
  }

  /** The flight holds what it should throughout a run of packed traffic if and only if every
      push fits the cap and comes in time for every waiting message. */
  lemma TracksIffFits(sent: Catalogue, es: seq<Arrival>, timeout: int)
    requires Packed(sent, es) && timeout >= 0
    ensures (forall n: nat :: n <= |es| ==> Tracks(sent, es, n, Run(es[..n], timeout))) <==> Fair(sent, es, timeout)
  {
    if Fair(sent, es, timeout) {
      forall n: nat | n <= |es|
        ensures Tracks(sent, es, n, Run(es[..n], timeout))
      {
        RunTracks(sent, es, n, timeout);
      }
    } else {
      var i :| 0 <= i < |es| && !(FitsCap(sent, es, i) && InTime(sent, es, i, timeout));
      var n := FirstMisfit(sent, es, i, timeout);
      if InTime(sent, es, n, timeout) {
        var lost := CapCosts(sent, es, n, timeout);
        assert !Tracks(sent, es, n + 1, Run(es[..n + 1], timeout));
      } else {
        var lost :| lost in Waiting(sent, es, n) && es[n].now - Since(sent, es, n, lost) > timeout;
        TimeoutCosts(sent, es, n, timeout, lost);
        assert !Tracks(sent, es, n + 1, Run(es[..n + 1], timeout));
      }
    }
  }

  /** For traffic that is in time the cap alone decides. */
  lemma TracksIffFitsCap(sent: Catalogue, es: seq<Arrival>, timeout: int)
    requires Packed(sent, es) && timeout >= 0 && forall i :: 0 <= i < |es| ==> InTime(sent, es, i, timeout)
    ensures (forall n: nat :: n <= |es| ==> Tracks(sent, es, n, Run(es[..n], timeout))) <==>
            (forall i: nat :: i < |es| ==> FitsCap(sent, es, i))
  {
    TracksIffFits(sent, es, timeout);
  }

  // ---- What is returned, whatever is lost -------------------------------------------------

  /** The pushes since `b` have brought chunk `k` if and only if there is a first payload for it,
      and that is its slice. */
  lemma {:induction false} FirstPayloadIsSlice(sent: Catalogue, es: seq<Arrival>, b: nat, n: nat, id: nat, k: nat)
    requires Packed(sent, es) && n <= |es| && id in sent && k < ChunkCount(|sent[id]|)
    ensures FirstPayload(es, b, n, id, ChunkCount(|sent[id]|), k) ==
            if k in Seen(es, b, n, id) then Some(Slice(sent[id], k)) else None
  {
    if n > b {
      FirstPayloadIsSlice(sent, es, b, n - 1, id, k);
      ChunkOf(sent, es[n - 1]);
    }
  }

  lemma JoinedStep(payload: seq<byte>, k: nat)
    requires k <= ChunkCount(|payload|)
    ensures JoinedSlices(payload, k) == if k == 0 then [] else JoinedSlices(payload, k - 1) + Slice(payload, k - 1)
  {
  }

  lemma {:induction false} JoinFirstIsJoin(sent: Catalogue, es: seq<Arrival>, b: nat, n: nat, id: nat, k: nat)
    requires Packed(sent, es) && n <= |es| && id in sent && k <= ChunkCount(|sent[id]|)
    requires Seen(es, b, n, id) == Whole(sent, id)
    requires forall j: nat :: j < k ==> FirstPayload(es, b, n, id, ChunkCount(|sent[id]|), j).Some?
    ensures JoinFirst(es, b, n, id, ChunkCount(|sent[id]|), k) == JoinedSlices(sent[id], k)
  {
    hide Packed, Slice, ChunkCount, FirstPayload, Seen, Whole, JoinedSlices;
    if k > 0 {
      FirstPayloadIsSlice(sent, es, b, n, id, k - 1);
      JoinFirstIsJoin(sent, es, b, n, id, k - 1);
    }
    JoinedStep(sent[id], k);
  }

  lemma AllArrivedIff(sent: Catalogue, es: seq<Arrival>, b: nat, n: nat, id: nat)
    requires Packed(sent, es) && n <= |es| && id in sent
    ensures var count := ChunkCount(|sent[id]|);
            && (AllArrived(es, b, n, id, count) <==> Seen(es, b, n, id) == Whole(sent, id))
            && (AllArrived(es, b, n, id, count) ==> JoinFirst(es, b, n, id, count, count) == sent[id])
  {
    var count := ChunkCount(|sent[id]|);
    SeenBounds(sent, es, b, n, id);
    hide Packed;
    forall k: nat | k < count
      ensures FirstPayload(es, b, n, id, count, k).Some? <==> k in Seen(es, b, n, id)
    {
      FirstPayloadIsSlice(sent, es, b, n, id, k);
    }
    if AllArrived(es, b, n, id, count) {
      JoinFirstIsJoin(sent, es, b, n, id, count);
      SlicesRebuildPayload(sent[id]);
    }
  }

  /** In any run of packed traffic, whatever the cap and the timeout take away, a push returns
      something if and only if it brings the last chunk that was missing since the entry of its
      message was opened, and what it returns is the payload as packed. */
  lemma ReturnedSinceOpened(sent: Catalogue, es: seq<Arrival>, n: nat, id: nat, timeout: int)
    requires Packed(sent, es) && n < |es| && BringsFor(es[n], id)
    ensures id in sent
    ensures var b := Incarnation(es, n, id, timeout);
            Output(es, n, timeout) == if Covers(sent, es, b, n, id) then Some(sent[id]) else None
  {
    hide Output, Incarnation, FirstPayload, AllArrived, JoinFirst, ChunkCount, Proper;
    var env, b := es[n].header.value, Incarnation(es, n, id, timeout);
    ChunkOf(sent, es[n]);
    OutputIsExpected(es, n, timeout);
    IncarnationBrings(sent, es, n, id, timeout);
    FirstPayloadIsSlice(sent, es, b, n, id, env.index);
    AllArrivedIff(sent, es, b, n + 1, id);
    SeenBounds(sent, es, b, n, id);
    assert env.index in Whole(sent, id);
    assert Seen(es, b, n + 1, id) == Seen(es, b, n, id) + {env.index};
  }

  /** The push that opened the entry is one that brings a chunk of the message. */
  lemma IncarnationBrings(sent: Catalogue, es: seq<Arrival>, n: nat, id: nat, timeout: int)
    requires Packed(sent, es) && n < |es| && BringsFor(es[n], id)
    ensures var b := Incarnation(es, n, id, timeout);
            es[b].header.Some? && es[b].header.value.count == es[n].header.value.count
  {
    ChunkOf(sent, es[n]);
    StateIsHistory(es, n, timeout);
    var f := DropExpired(Run(es[..n], timeout), es[n].now, timeout);
    ExpiryIsExact(Run(es[..n], timeout), es[n].now, timeout);
    var b := Incarnation(es, n, id, timeout);
    if Has(f, id) {
      var m := f[Position(f, id)];
      assert m in f && m in Run(es[..n], timeout);
      assert Explained(es, Incarnation(es, n - 1, m.id, timeout), n, m);
      ChunkOf(sent, es[b]);
    }
  }

  lemma {:induction false} IncarnationSince(es: seq<Arrival>, b: nat, n: nat, id: nat, timeout: int)
    requires b <= n < |es| && Absent(es, b, id, timeout)
    ensures Incarnation(es, n, id, timeout) >= b
  {
    hide Run, DropExpired, Has;
    if b < n {
      IncarnationSince(es, b, n - 1, id, timeout);
    }
  }

  lemma {:induction false} SeenLater(es: seq<Arrival>, b: nat, c: nat, n: nat, id: nat)
    requires b <= c && n <= |es|
    ensures Seen(es, c, n, id) <= Seen(es, b, n, id)
  {
    if n > c {
      SeenLater(es, b, c, n - 1, id);
    }
  }

  lemma PackedBounds(sent: Catalogue, es: seq<Arrival>, b: nat, n: nat, id: nat)
    requires Packed(sent, es) && n <= |es| && id in sent
    ensures Seen(es, b, n, id) <= Whole(sent, id)
  {
    SeenBounds(sent, es, b, n, id);
  }

  /** A message that lost its entry is not returned before all its chunks have come again. */
  lemma LostNeedsAllAgain(sent: Catalogue, es: seq<Arrival>, b: nat, n: nat, id: nat, timeout: int)
    requires Packed(sent, es) && id in sent && b <= n < |es| && Absent(es, b, id, timeout)
    requires Seen(es, b, n + 1, id) != Whole(sent, id)
    ensures !Delivers(es, n, id, timeout)
  {
    hide Packed, Output, Incarnation, Absent, Seen, Whole;
    if BringsFor(es[n], id) {
      ReturnedSinceOpened(sent, es, n, id, timeout);
      IncarnationSince(es, b, n, id, timeout);
      SeenLater(es, b, Incarnation(es, n, id, timeout), n + 1, id);
      PackedBounds(sent, es, b, n + 1, id);
    }
  }

  /** So the first push that does not fit the cap delays the message that has waited longest:
      until all its chunks have come again, no push returns it. */
  lemma CapDelaysDelivery(sent: Catalogue, es: seq<Arrival>, n: nat, timeout: int) returns (lost: nat)
    requires n < |es| && FairUpTo(sent, es, n, timeout) && InTime(sent, es, n, timeout) && !FitsCap(sent, es, n)
    ensures lost in Waiting(sent, es, n)
    ensures forall id :: id in Waiting(sent, es, n) && id != lost ==>
              Opening(sent, es, n, lost) < Opening(sent, es, n, id)
    ensures forall k :: n < k < |es| && Delivers(es, k, lost, timeout) ==>
              NeededAgain(sent, es, n, k, lost)
  {
    hide Run, Has, Waiting, Opening, FitsCap, InTime, Delivers, Awaited, TracksOthers, Output;
    lost := CapCosts(sent, es, n, timeout);
    assert lost in sent by { WaitingAreSent(sent, es, n); }
    forall k | n < k < |es| && Delivers(es, k, lost, timeout)
      ensures NeededAgain(sent, es, n, k, lost)
    {
      StillAbsent(es, n + 1, lost, timeout);
      if Seen(es, n + 1, k + 1, lost) != Whole(sent, lost) {
        LostNeedsAllAgain(sent, es, n + 1, k, lost, timeout);
      }
    }
  }

  lemma WaitingAreSent(sent: Catalogue, es: seq<Arrival>, n: nat)
    requires n <= |es|
    ensures forall id :: id in Waiting(sent, es, n) ==> id in sent
  {
  }

  /** The pushes after `n` up to `k` bring all chunks of the message. */
  predicate NeededAgain(sent: Catalogue, es: seq<Arrival>, n: nat, k: nat, id: nat)
    requires k < |es|
  {
    id in sent && Seen(es, n + 1, k + 1, id) == Whole(sent, id)
  }

  /** And the first push that comes too late for waiting messages delays each of them: until all
      chunks have come again, counting from that push, none is returned. */
  lemma TimeoutDelaysDelivery(sent: Catalogue, es: seq<Arrival>, n: nat, timeout: int, lost: nat, k: nat)
    requires n <= k < |es| && FairUpTo(sent, es, n, timeout) && timeout >= 0
    requires lost in Waiting(sent, es, n) && es[n].now - Since(sent, es, n, lost) > timeout
    requires Seen(es, n, k + 1, lost) != Whole(sent, lost)
    ensures !Delivers(es, k, lost, timeout)
  {
    TimeoutCosts(sent, es, n, timeout, lost);
    LostNeedsAllAgain(sent, es, n, k, lost, timeout);
  }

  // ---- Sixteen waiting messages and a one-chunk message -----------------------------------

  /** Sixteen two-chunk messages send their first chunks, a one-chunk message comes, and then
      the second chunk of the oldest of the sixteen. */
  ghost predicate CapRun(sent: Catalogue, es: seq<Arrival>, timeout: int) {
    && Sendable(sent) && Proper(es) && |es| == 18
    && (forall i: nat :: i < 16 ==> i in sent && ChunkCount(|sent[i]|) == 2 && IsChunk(sent, es[i], i, 0))
    && 16 in sent && ChunkCount(|sent[16]|) == 1 && IsChunk(sent, es[16], 16, 0)
    && IsChunk(sent, es[17], 0, 1)
    && es[17].now - es[0].stamp <= timeout
  }

  function SampleMessages(): Catalogue {
    map i | i in Range(17) :: if i == 16 then [] else seq(CHUNK_PAYLOAD_MAX + 1, _ => 0)
  }

  function SamplePush(i: nat): Arrival
    requires i < 18
  {
    var sent := SampleMessages();
    var id, k := if i == 17 then 0 else i, if i == 17 then 1 else 0;
    Arrival(Parse(PackedChunk(id, sent[id], k)), 0, 0)
  }

  lemma SampleLengths()
    ensures var sent := SampleMessages();
            && (forall id: nat :: id in sent <==> id < 17)
            && (forall id :: id in sent ==> |sent[id]| == if id == 16 then 0 else CHUNK_PAYLOAD_MAX + 1)
  {
  }

  lemma SampleFacts(i: nat)
    requires i < 18
    ensures var sent, id, k := SampleMessages(), if i == 17 then 0 else i, if i == 17 then 1 else 0;
            && Sendable(sent) && id in sent
            && ChunkCount(|sent[id]|) == (if id == 16 then 1 else 2)
            && IsChunk(sent, SamplePush(i), id, k)
            && SamplePush(i).header.Some? && WellFormed(SamplePush(i).header.value)
  {
    hide SampleMessages, Parse, PackedChunk, Slice;
    var sent, id, k := SampleMessages(), if i == 17 then 0 else i, if i == 17 then 1 else 0;
    SampleLengths();
    SlicesAreShort(sent[id], k);
    PackedChunkParses(id, sent[id], k);
  }

  lemma SlicesAreShort(payload: seq<byte>, k: nat)
    requires k < ChunkCount(|payload|)
    ensures |Slice(payload, k)| <= CHUNK_PAYLOAD_MAX
  {
  }

  function SampleRun(): seq<Arrival> {
    seq(18, i requires 0 <= i < 18 => SamplePush(i))
  }

  /** There is such a run: sixteen messages one byte longer than a chunk, and an empty one. */
  lemma CapRunExists()
    ensures CapRun(SampleMessages(), SampleRun(), 0)
  {
    hide SampleMessages, IsChunk, ChunkCount, Sendable, WellFormed;
    var sent, es := SampleMessages(), SampleRun();
    forall i: nat | i < 18
      ensures es[i] == SamplePush(i) && es[i].now == 0 && es[i].stamp == 0
      ensures es[i].header.Some? && WellFormed(es[i].header.value) && Sendable(sent)
      ensures i < 16 ==> i in sent && ChunkCount(|sent[i]|) == 2 && IsChunk(sent, es[i], i, 0)
    {
      SampleFacts(i);
    }
    SampleFacts(16);
    SampleFacts(17);
  }

  lemma ChunkHeader(sent: Catalogue, e: Arrival, id: nat, k: nat)
    requires Sendable(sent) && IsChunk(sent, e, id, k)
    ensures e.header == Some(Envelope(id, k, ChunkCount(|sent[id]|), Slice(sent[id], k)))
  {
    PackedChunkParses(id, sent[id], k);
  }

  /** The headers of the run. */
  lemma CapRunHeader(sent: Catalogue, es: seq<Arrival>, timeout: int, i: nat)
    requires CapRun(sent, es, timeout) && i < 18
    ensures Traffic(sent, es[i])
    ensures i < 16 ==> es[i].header == Some(Envelope(i, 0, 2, Slice(sent[i], 0)))
    ensures i == 16 ==> es[i].header == Some(Envelope(16, 0, 1, Slice(sent[16], 0)))
    ensures i == 17 ==> es[i].header == Some(Envelope(0, 1, 2, Slice(sent[0], 1)))
  {
    hide IsChunk, Proper, ChunkCount, Slice;
    if i == 17 {
      assert ChunkCount(|sent[0]|) == 2;
      ChunkHeader(sent, es[17], 0, 1);
    } else {
      ChunkHeader(sent, es[i], i, 0);
    }
  }

  lemma {:induction false} FirstsPending(sent: Catalogue, es: seq<Arrival>, timeout: int, n: nat, i: nat)
    requires CapRun(sent, es, timeout) && n <= 16 && i in sent
    ensures Pending(sent, es, n, i) == if i < n then {0} else {}
  {
    if n > 0 {
      FirstsPending(sent, es, timeout, n - 1, i);
      PendingAfterFirst(sent, es, timeout, n - 1, i);
    }
  }

  lemma CapRunParts(sent: Catalogue, es: seq<Arrival>, timeout: int, i: nat)
    requires CapRun(sent, es, timeout) && i < 16
    ensures |es| == 18 && i in sent && Whole(sent, i) == {0, 1}
  {
    hide IsChunk, Proper, ChunkCount, Sendable;
    assert ChunkCount(|sent[i]|) == 2;
  }

  lemma PendingAfterFirst(sent: Catalogue, es: seq<Arrival>, timeout: int, n: nat, i: nat)
    requires CapRun(sent, es, timeout) && |es| == 18 && n < 16 && i in sent
    ensures Pending(sent, es, n + 1, i) == if i == n then Pending(sent, es, n, i) + {0} else Pending(sent, es, n, i)
  {
    hide CapRun, Whole;
    CapRunHeader(sent, es, timeout, n);
    if i == n {
      CapRunParts(sent, es, timeout, i);
      NothingBefore(sent, es, timeout, n, i);
    }
  }

  lemma {:induction false} NothingBefore(sent: Catalogue, es: seq<Arrival>, timeout: int, n: nat, i: nat)
    requires CapRun(sent, es, timeout) && |es| == 18 && n <= i < 16 && i in sent
    ensures Pending(sent, es, n, i) == {}
  {
    hide CapRun, Whole;
    if n > 0 {
      CapRunHeader(sent, es, timeout, n - 1);
      NothingBefore(sent, es, timeout, n - 1, i);
    }
  }

  lemma FirstsWaiting(sent: Catalogue, es: seq<Arrival>, timeout: int, n: nat)
    requires CapRun(sent, es, timeout) && n <= 16
    ensures Waiting(sent, es, n) == Range(n)
  {
    hide IsChunk, Proper, Pending;
    forall id: nat
      ensures id in Waiting(sent, es, n) <==> id < n
    {
      if id in sent {
        FirstsPending(sent, es, timeout, n, id);
      }
    }
  }

  lemma CapRunInTime(sent: Catalogue, es: seq<Arrival>, timeout: int, n: nat)
    requires CapRun(sent, es, timeout) && n <= 17
    ensures InTime(sent, es, n, timeout)
  {
    hide IsChunk, Sendable, Opening, ChunkCount;
    forall id | id in Waiting(sent, es, n)
      ensures es[n].now - Since(sent, es, n, id) <= timeout
    {
      var i := Opening(sent, es, n, id);
      assert es[n].now <= es[17].now && es[0].stamp <= es[i].stamp;
    }
  }

  lemma CapRunFits(sent: Catalogue, es: seq<Arrival>, timeout: int, n: nat)
    requires CapRun(sent, es, timeout) && n <= 16
    ensures FitsCap(sent, es, n) <==> n < 16
  {
    hide IsChunk, ChunkCount, Waiting, Proper, Sendable;
    FirstsWaiting(sent, es, timeout, n);
    CapRunHeader(sent, es, timeout, n);
    assert Range(n) + {n} == Range(n + 1);
  }

  /** All of the run but the push of the one-chunk message fits. */
  lemma CapRunFairUpTo(sent: Catalogue, es: seq<Arrival>, timeout: int)
    requires CapRun(sent, es, timeout)
    ensures FairUpTo(sent, es, 16, timeout) && InTime(sent, es, 16, timeout) && !FitsCap(sent, es, 16)
  {
    hide IsChunk, ChunkCount, Waiting, InTime, Traffic, FitsCap, Proper, Sendable;
    forall i | 0 <= i < 18
      ensures Traffic(sent, es[i])
    {
      CapRunHeader(sent, es, timeout, i);
    }
    forall n | 0 <= n <= 16
      ensures InTime(sent, es, n, timeout) && (FitsCap(sent, es, n) <==> n < 16)
    {
      CapRunFits(sent, es, timeout, n);
      CapRunInTime(sent, es, timeout, n);
    }
  }

  lemma {:induction false} SeenOfOldest(sent: Catalogue, es: seq<Arrival>, timeout: int, n: nat)
    requires CapRun(sent, es, timeout) && 1 <= n <= 17
    ensures Seen(es, 0, n, 0) == {0} && Seen(es, 17, n, 0) == {}
  {
    CapRunHeader(sent, es, timeout, n - 1);
    if n > 1 {
      SeenOfOldest(sent, es, timeout, n - 1);
    }
  }

  /** The message that has waited longest is the first one. */
  lemma OldestIsFirst(sent: Catalogue, es: seq<Arrival>, timeout: int, n: nat)
    requires CapRun(sent, es, timeout) && 1 <= n <= 16 && Pending(sent, es, n, 0) != {}
    ensures Opening(sent, es, n, 0) == 0
  {
    if n > 1 {
      FirstsPending(sent, es, timeout, n - 1, 0);
      OldestIsFirst(sent, es, timeout, n - 1);
    }
  }

  /** The one-chunk message is returned, but it has cost the oldest message its place: that one
      is not returned although all its chunks came and nothing was too old. */
  lemma OneChunkEvictsOldest(sent: Catalogue, es: seq<Arrival>, timeout: int)
    requires CapRun(sent, es, timeout)
    ensures Covers(sent, es, 0, 17, 0) && !Delivers(es, 17, 0, timeout)
    ensures Output(es, 16, timeout) == Some(sent[16]) && forall n :: 0 <= n < 16 ==> Output(es, n, timeout) == None
  {
    hide Output, Run, IsChunk, Proper, Opening, FitsCap, InTime, ChunkCount, Has, Awaited, TracksOthers;
    CapRunFairUpTo(sent, es, timeout);
    forall n | 0 <= n < 16
      ensures Output(es, n, timeout) == None
    {
      NothingDue(sent, es, timeout, n);
    }
    var lost := CapDelaysDelivery(sent, es, 16, timeout);
    FirstsPending(sent, es, timeout, 16, 0);
    OldestIsFirst(sent, es, timeout, 16);
    assert lost == 0;
    CapRunCovers(sent, es, timeout);
    var again := CapCosts(sent, es, 16, timeout);
    OneChunkDue(sent, es, timeout);
  }

  lemma NothingDue(sent: Catalogue, es: seq<Arrival>, timeout: int, n: nat)
    requires CapRun(sent, es, timeout) && n < 16 && FairUpTo(sent, es, 16, timeout)
    ensures Output(es, n, timeout) == None
  {
    hide IsChunk, Proper, Output, ChunkCount;
    CapRunHeader(sent, es, timeout, n);
    FirstsPending(sent, es, timeout, n, n);
    assert ChunkCount(|sent[n]|) == 2 && 1 in Whole(sent, n);
    DeliveredIntact(sent, es, n, timeout);
  }

  lemma OneChunkDue(sent: Catalogue, es: seq<Arrival>, timeout: int)
    requires CapRun(sent, es, timeout)
    ensures Due(sent, es, 16) == Some(sent[16])
  {
    hide IsChunk, Proper;
    CapRunHeader(sent, es, timeout, 16);
    FirstsPending(sent, es, timeout, 16, 16);
    assert Whole(sent, 16) == {0};
  }

  lemma CapRunCovers(sent: Catalogue, es: seq<Arrival>, timeout: int)
    requires CapRun(sent, es, timeout)
    ensures Packed(sent, es) && Covers(sent, es, 0, 17, 0)
    ensures BringsFor(es[17], 0) && Seen(es, 17, 18, 0) != Whole(sent, 0)
  {
    hide IsChunk, Proper;
    CapRunFairUpTo(sent, es, timeout);
    SeenOfOldest(sent, es, timeout, 17);
    CapRunHeader(sent, es, timeout, 17);
    assert 0 in Whole(sent, 0) && 1 in Whole(sent, 0);
  }
}
