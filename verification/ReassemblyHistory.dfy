/** What a push returns, told by the payloads of the calls made so far. Which of them count is
    told by the machine itself: those since the message was last not in flight. */
module ReassemblyHistory {
  import opened Common
  import opened Framing
  import opened Reassembly

  /** The call that opened the entry which call `n` sees under `id`: the latest one, up to
      `n` itself, that did not find the message in flight after its eviction pass. */
  function Incarnation(es: seq<Arrival>, n: nat, id: nat, timeout: int): (b: nat)
    requires n < |es|
    ensures b <= n
  {
    if n > 0 && Has(DropExpired(Run(es[..n], timeout), es[n].now, timeout), id)
    then Incarnation(es, n - 1, id, timeout)
    else n
  }

  predicate Carries(e: Arrival, id: nat, count: nat, k: nat) {
    var env := e.header;
    env.Some? && env.value.id == id && env.value.count == count && env.value.index == k
  }

  /** The first payload for chunk `k` of a message among the calls from `b` up to `n`. */
  function FirstPayload(es: seq<Arrival>, b: nat, n: nat, id: nat, count: nat, k: nat): Option<seq<byte>>
    requires n <= |es|
  {
    if n <= b then None
    else
      var earlier := FirstPayload(es, b, n - 1, id, count, k);
      if earlier.Some? then earlier
      else if Carries(es[n - 1], id, count, k) then Some(es[n - 1].header.value.payload)
      else None
  }

  /** `m` was opened by call `b` and holds the first payload per index since then. */
  predicate Explained(es: seq<Arrival>, b: nat, n: nat, m: Entry)
    requires n <= |es|
  {
    && b < |es| && es[b].header.Some?
    && es[b].header.value.id == m.id && es[b].header.value.count == m.count
    && m.since == es[b].stamp
    && forall k: nat :: k < m.count ==>
         FirstPayload(es, b, n, m.id, m.count, k) == if k in m.got then Some(m.got[k]) else None
  }

  ghost predicate AllExplained(es: seq<Arrival>, n: nat, timeout: int)
    requires n <= |es|
  {
    forall m :: m in Run(es[..n], timeout) ==>
      n > 0 && Explained(es, Incarnation(es, n - 1, m.id, timeout), n, m)
  }

  lemma OpenedExplained(es: seq<Arrival>, n: nat, timeout: int)
    requires n < |es| && AllExplained(es, n, timeout)
    requires es[n].header.Some?
    ensures var live := DropExpired(Run(es[..n], timeout), es[n].now, timeout);
            forall m :: m in Opened(live, es[n].header.value, es[n].stamp) ==>
              Explained(es, Incarnation(es, n, m.id, timeout), n, m)
  {
    var env := es[n].header.value;
    var live := DropExpired(Run(es[..n], timeout), es[n].now, timeout);
    ExpiryIsExact(Run(es[..n], timeout), es[n].now, timeout);
    forall m | m in Opened(live, env, es[n].stamp)
      ensures Explained(es, Incarnation(es, n, m.id, timeout), n, m)
    {
      if m in live {
        var i :| 0 <= i < |live| && live[i] == m;
        assert Has(live, m.id);
      } else {
        assert m == Entry(env.id, env.count, map[], es[n].stamp);
      }
    }
  }

  /** A call that brings nothing new for `m` leaves its explanation as it is. */
  lemma StaysExplained(es: seq<Arrival>, b: nat, n: nat, m: Entry)
    requires n < |es| && Explained(es, b, n, m)
    requires forall k: nat :: k < m.count && Carries(es[n], m.id, m.count, k) ==> k in m.got
    ensures Explained(es, b, n + 1, m)
  {
    forall k: nat | k < m.count
      ensures FirstPayload(es, b, n + 1, m.id, m.count, k) == if k in m.got then Some(m.got[k]) else None
    {
      assert FirstPayload(es, b, n, m.id, m.count, k) == if k in m.got then Some(m.got[k]) else None;
    }
  }

  /** A call that brings a missing chunk of `m` explains the chunk it adds. */
  lemma GrowsExplained(es: seq<Arrival>, b: nat, n: nat, m: Entry, env: Envelope)
    requires n < |es| && b <= n && Explained(es, b, n, m)
    requires es[n].header == Some(env) && env.id == m.id && env.count == m.count && env.index !in m.got
    ensures Explained(es, b, n + 1, m.(got := m.got[env.index := env.payload]))
  {
    var got := m.got[env.index := env.payload];
    forall k: nat | k < m.count
      ensures FirstPayload(es, b, n + 1, m.id, m.count, k) == if k in got then Some(got[k]) else None
    {
      assert FirstPayload(es, b, n, m.id, m.count, k) == if k in m.got then Some(m.got[k]) else None;
    }
  }

  lemma AcceptExplained(es: seq<Arrival>, n: nat, f: Flight, env: Envelope, timeout: int)
    requires n < |es| && es[n].header == Some(env)
    requires DistinctIds(f) && Has(f, env.id)
    requires forall m :: m in f ==> Explained(es, Incarnation(es, n, m.id, timeout), n, m)
    ensures forall m :: m in Accept(f, env).0 ==> Explained(es, Incarnation(es, n, m.id, timeout), n + 1, m)
  {
    var i := Position(f, env.id);
    var hit := f[i];
    KeepExact(f, (x: Entry) => x.id != env.id);
    if hit.count == env.count && env.index !in hit.got {
      GrowsExplained(es, Incarnation(es, n, env.id, timeout), n, hit, env);
    }
    forall m | m in Accept(f, env).0
      ensures Explained(es, Incarnation(es, n, m.id, timeout), n + 1, m)
    {
      if m in f && (m.id != env.id || m == hit) {
        if m != hit || hit.count != env.count || env.index in hit.got {
          StaysExplained(es, Incarnation(es, n, m.id, timeout), n, m);
        }
      }
    }
  }

  lemma ExpiryExplained(es: seq<Arrival>, n: nat, timeout: int)
    requires n < |es| && AllExplained(es, n, timeout) && es[n].header.None?
    ensures forall m :: m in DropExpired(Run(es[..n], timeout), es[n].now, timeout) ==>
              Explained(es, Incarnation(es, n, m.id, timeout), n + 1, m)
  {
    var live := DropExpired(Run(es[..n], timeout), es[n].now, timeout);
    ExpiryIsExact(Run(es[..n], timeout), es[n].now, timeout);
    forall m | m in live
      ensures Explained(es, Incarnation(es, n, m.id, timeout), n + 1, m)
    {
      var i :| 0 <= i < |live| && live[i] == m;
      assert Has(live, m.id);
      StaysExplained(es, Incarnation(es, n, m.id, timeout), n, m);
    }
  }

  lemma StepExplained(es: seq<Arrival>, n: nat, timeout: int)
    requires n < |es| && Proper(es) && AllExplained(es, n, timeout)
    ensures AllExplained(es, n + 1, timeout)
  {
    hide Run, Output, Explained, Incarnation, DropExpired, Opened, Accept;
    assert es[..n + 1] == es[..n] + [es[n]];
    PushSteps(es[..n], es[n], timeout);
    match es[n].header
    case None =>
      ExpiryExplained(es, n, timeout);
    case Some(env) =>
      var live := DropExpired(Run(es[..n], timeout), es[n].now, timeout);
      OpenedExplained(es, n, timeout);
      AcceptExplained(es, n, Opened(live, env, es[n].stamp), env, timeout);
  }

  /** Every entry in every reachable state holds exactly the first payload received per
      index since it was opened, and the time it was opened. */
  lemma {:induction false} StateIsHistory(es: seq<Arrival>, n: nat, timeout: int)
    requires n <= |es| && Proper(es)
    ensures AllExplained(es, n, timeout)
  {
    if n > 0 {
      StateIsHistory(es, n - 1, timeout);
      StepExplained(es, n - 1, timeout);
    }
  }

  /** The first payloads of chunks 0..k, joined in index order. */
  function JoinFirst(es: seq<Arrival>, b: nat, n: nat, id: nat, count: nat, k: nat): seq<byte>
    requires n <= |es|
    requires forall j: nat :: j < k ==> FirstPayload(es, b, n, id, count, j).Some?
  {
    if k == 0 then []
    else JoinFirst(es, b, n, id, count, k - 1) + FirstPayload(es, b, n, id, count, k - 1).value
  }

  ghost predicate AllArrived(es: seq<Arrival>, b: nat, n: nat, id: nat, count: nat)
    requires n <= |es|
  {
    forall k: nat :: k < count ==> FirstPayload(es, b, n, id, count, k).Some?
  }

  /** What call `n` should return: the message, if this very call brings the last chunk
      that was missing since its entry was opened, under the count it was opened with. */
  ghost function Expected(es: seq<Arrival>, n: nat, timeout: int): Option<seq<byte>>
    requires n < |es|
  {
    match es[n].header
    case None => None
    case Some(env) =>
      var b := Incarnation(es, n, env.id, timeout);
      if && es[b].header.Some? && es[b].header.value.count == env.count
         && FirstPayload(es, b, n, env.id, env.count, env.index).None?
         && AllArrived(es, b, n + 1, env.id, env.count)
      then Some(JoinFirst(es, b, n + 1, env.id, env.count, env.count))
      else None
  }

  lemma {:induction false} JoinAgrees(es: seq<Arrival>, b: nat, n: nat, id: nat, count: nat,
                                      got: map<nat, seq<byte>>, k: nat)
    requires n <= |es| && k <= count
    requires forall j: nat :: j < k ==> j in got && FirstPayload(es, b, n, id, count, j) == Some(got[j])
    ensures Join(got, k) == JoinFirst(es, b, n, id, count, k)
  {
    if k > 0 {
      JoinAgrees(es, b, n, id, count, got, k - 1);
    }
  }

  /** Filing a chunk under an explained entry completes it exactly when the history says so. */
  lemma FilingExplained(es: seq<Arrival>, b: nat, n: nat, m: Entry, env: Envelope)
    requires n < |es| && b <= n && Explained(es, b, n, m) && es[n].header == Some(env)
    requires env.id == m.id && env.count == m.count && env.index < m.count
    ensures FirstPayload(es, b, n, env.id, env.count, env.index).None? <==> env.index !in m.got
    ensures env.index !in m.got ==>
              var got := m.got[env.index := env.payload];
              && (AllArrived(es, b, n + 1, env.id, env.count) <==> Full(got, m.count))
              && (Full(got, m.count) ==>
                    Join(got, m.count) == JoinFirst(es, b, n + 1, env.id, env.count, env.count))
  {
    assert FirstPayload(es, b, n, env.id, env.count, env.index) ==
           if env.index in m.got then Some(m.got[env.index]) else None;
    if env.index !in m.got {
      GrowsExplained(es, b, n, m, env);
      NewlyComplete(es, b, n + 1, m.(got := m.got[env.index := env.payload]));
    }
  }

  lemma NewlyComplete(es: seq<Arrival>, b: nat, n: nat, m: Entry)
    requires n <= |es| && Explained(es, b, n, m)
    ensures AllArrived(es, b, n, m.id, m.count) <==> Full(m.got, m.count)
    ensures Full(m.got, m.count) ==> Join(m.got, m.count) == JoinFirst(es, b, n, m.id, m.count, m.count)
  {
    if Full(m.got, m.count) {
      JoinAgrees(es, b, n, m.id, m.count, m.got, m.count);
    }
  }

  /** Every result, on every sequence of arbitrary buffers, is the one the history calls for. */
  lemma OutputIsExpected(es: seq<Arrival>, n: nat, timeout: int)
    requires n < |es| && Proper(es)
    ensures Output(es, n, timeout) == Expected(es, n, timeout)
  {
    hide Run, DropExpired, Incarnation, Opened, AllExplained, AllArrived, JoinFirst, FirstPayload, Full, Join, Without;
    StateIsHistory(es, n, timeout);
    var e := es[n];
    PushSteps(es[..n], e, timeout);
    match e.header
    case None =>
    case Some(env) =>
      OpenedExplained(es, n, timeout);
      var f := Opened(DropExpired(Run(es[..n], timeout), e.now, timeout), env, e.stamp);
      var m, b := f[Position(f, env.id)], Incarnation(es, n, env.id, timeout);
      assert m in f && Explained(es, b, n, m);
      if m.count == env.count {
        FilingExplained(es, b, n, m, env);
      }
  }
}
