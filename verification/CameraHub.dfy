/** Who holds which camera token (camera_hub.cpp), and the one a session holds
    (control_message_dispatcher.cpp). */
module CameraHub {
  import opened Common

  type Callback = nat

  /** Width, height and frames per second. */
  type Size = (int, int, int)

  datatype Stream = Stream(width: int, height: int, fps: int, subscribers: map<nat, Callback>)

  type Streams = map<int, Stream>

  /** A Subscription by value: what its destructor will take back. */
  datatype Handle = Inactive | Active(sensor: int, token: nat)

  predicate Registered(streams: Streams, sensor: int, token: nat) {
    sensor in streams && token in streams[sensor].subscribers
  }

  /** The outcome of Subscribe: streams, next token and handle. `starts` says whether a
      camera that has to be opened starts, `alive` whether the hub is still owned. */
  function Subscribed(streams: Streams, next: nat, sensor: int, size: Size, cb: Option<Callback>,
                      starts: bool, alive: bool)
    : (Streams, nat, Handle)
  {
    if cb.None? then (streams, next, Inactive)
    else
      var opens := sensor !in streams;
      var stream := if opens then Stream(size.0, size.1, size.2, map[]) else streams[sensor];
      var added := streams[sensor := stream.(subscribers := stream.subscribers[next := cb.value])];
      if opens && !starts then (added - {sensor}, next + 1, Inactive)
      else if !alive then (Unsubscribed(added, sensor, next), next + 1, Inactive)
      else (added, next + 1, Active(sensor, next))
  }

  /** The stream stays open when its last subscriber goes. */
  function Unsubscribed(streams: Streams, sensor: int, token: nat): Streams {
    if token == 0 || sensor !in streams then streams
    else streams[sensor := streams[sensor].(subscribers := streams[sensor].subscribers - {token})]
  }

  function Released(streams: Streams, h: Handle): Streams {
    if h.Active? then Unsubscribed(streams, h.sensor, h.token) else streams
  }

  // ---- Histories ------------------------------------------------------------------------

  /** A handle object, whatever its address. */
  type Name = nat

  datatype World = World(streams: Streams, next: nat, handles: map<Name, Handle>)

  datatype Op =
    | Construct(into: Name)
    | Subscribe(into: Name, sensor: int, size: Size, cb: Option<Callback>, starts: bool, alive: bool)
    | MoveConstruct(into: Name, from: Name)
    | MoveAssign(to: Name, from: Name)
    | Reset(h: Name)
    | Destroy(h: Name)

  /** The objects an operation names exist, and those it constructs are new. */
  predicate Possible(w: World, op: Op) {
    match op
    case Construct(into) => into !in w.handles
    case Subscribe(into, _, _, _, _, _) => into !in w.handles
    case MoveConstruct(into, from) => into !in w.handles && from in w.handles
    case MoveAssign(to, from) => to in w.handles && from in w.handles
    case Reset(h) => h in w.handles
    case Destroy(h) => h in w.handles
  }

  function Step(w: World, op: Op): World
    requires Possible(w, op)
  {
    match op
    case Construct(into) => w.(handles := w.handles[into := Inactive])
    case Subscribe(into, sensor, size, cb, starts, alive) =>
      var (streams, next, handle) := Subscribed(w.streams, w.next, sensor, size, cb, starts, alive);
      World(streams, next, w.handles[into := handle])
    case MoveConstruct(into, from) =>
      w.(handles := w.handles[into := w.handles[from]][from := Inactive])
    case MoveAssign(to, from) =>
      if to == from then w
      else
        w.(streams := Released(w.streams, w.handles[to]),
           handles := w.handles[to := w.handles[from]][from := Inactive])
    case Reset(h) =>
      w.(streams := Released(w.streams, w.handles[h]), handles := w.handles[h := Inactive])
    case Destroy(h) =>
      w.(streams := Released(w.streams, w.handles[h]), handles := w.handles - {h})
  }

  function Start(): World {
    World(map[], 1, map[])
  }

  predicate History(ops: seq<Op>)
    decreases |ops|, 0
  {
    ops == [] || (History(ops[..|ops| - 1]) && Possible(Run(ops[..|ops| - 1]), ops[|ops| - 1]))
  }

  function Run(ops: seq<Op>): World
    requires History(ops)
    decreases |ops|, 1
  {
    if ops == [] then Start() else Step(Run(ops[..|ops| - 1]), ops[|ops| - 1])
  }

  ghost predicate Holds(w: World, h: Name, sensor: int, token: nat) {
    h in w.handles && w.handles[h] == Active(sensor, token)
  }

  /** The registered tokens are those of the active handles, each held by one handle and
      registered at one sensor, and the next token is above them all. */
  ghost predicate Ledger(w: World) {
    && (forall h: Name, s: int, t: nat :: Holds(w, h, s, t) ==> Registered(w.streams, s, t))
    && (forall s: int, t: nat :: Registered(w.streams, s, t) ==> exists h: Name :: Holds(w, h, s, t))
    && (forall h: Name, h': Name, s: int, s': int, t: nat :: Holds(w, h, s, t) && Holds(w, h', s', t) ==> h == h')
    && (forall s: int, t: nat :: Registered(w.streams, s, t) ==> 0 < t < w.next)
    && w.next >= 1
  }

  lemma ReleasedExactly(streams: Streams, h: Handle, s: int, t: nat)
    requires h.Active? ==> h.token > 0
    ensures Registered(Released(streams, h), s, t) <==> Registered(streams, s, t) && h != Active(s, t)
  {
  }

  lemma SubscribedExactly(streams: Streams, next: nat, sensor: int, size: Size, cb: Option<Callback>,
                          starts: bool, alive: bool, s: int, t: nat)
    requires next > 0 && !Registered(streams, sensor, next)
    ensures var (streams', next', h) := Subscribed(streams, next, sensor, size, cb, starts, alive);
            && (Registered(streams', s, t) <==> Registered(streams, s, t) || h == Active(s, t))
            && (h.Active? ==> h == Active(sensor, next))
            && next' == (if cb.Some? then next + 1 else next)
            && (h.Active? <==> cb.Some? && alive && (sensor in streams || starts))
  {
  }

  /** Which streams there are afterwards, of which size, and whom a token calls back: a stream is
      opened with the size of the subscription that opens it and stays as it is, and the new
      token calls back whoever asked for it. */
  lemma SubscribedStreams(streams: Streams, next: nat, sensor: int, size: Size, cb: Option<Callback>,
                          starts: bool, alive: bool, s: int, t: nat)
    requires next > 0 && !Registered(streams, sensor, next)
    ensures var (streams', _, h) := Subscribed(streams, next, sensor, size, cb, starts, alive);
            && (s in streams' <==> s in streams || (s == sensor && cb.Some? && starts))
            && (s in streams ==>
                  && streams'[s].width == streams[s].width && streams'[s].height == streams[s].height
                  && streams'[s].fps == streams[s].fps)
            && (s in streams' && s !in streams ==>
                  (streams'[s].width, streams'[s].height, streams'[s].fps) == (size.0, size.1, size.2))
            && (Registered(streams', s, t) ==>
                  streams'[s].subscribers[t] ==
                  if h == Active(s, t) then cb.value else streams[s].subscribers[t])
  {
    hide Released;
    SubscribedExactly(streams, next, sensor, size, cb, starts, alive, s, t);
  }

  lemma ReleasedStreams(streams: Streams, h: Handle, s: int, t: nat)
    ensures s in Released(streams, h) <==> s in streams
    ensures s in streams ==>
              var after := Released(streams, h)[s];
              && after.width == streams[s].width && after.height == streams[s].height && after.fps == streams[s].fps
              && (t in after.subscribers ==>
                    t in streams[s].subscribers && after.subscribers[t] == streams[s].subscribers[t])
  {
  }

  /** A handle `mover` of `w` appears as `to` in `w'`, and apart from that only handles whose
      token was given back or which hold none have changed. */
  lemma LedgerMoves(w: World, w': World, gone: Handle, from: Name, to: Name)
    requires Ledger(w) && w'.next == w.next
    requires forall s: int, t: nat ::
               Registered(w'.streams, s, t) <==> Registered(w.streams, s, t) && gone != Active(s, t)
    requires forall h: Name, s: int, t: nat ::
               Holds(w', h, s, t) ==> gone != Active(s, t) && Holds(w, if h == to then from else h, s, t)
    requires forall h: Name, s: int, t: nat ::
               Holds(w, h, s, t) && gone != Active(s, t) ==> Holds(w', if h == from then to else h, s, t)
    requires forall s: int, t: nat :: Holds(w', from, s, t) ==> from == to
    ensures Ledger(w')
  {
    forall s: int, t: nat | Registered(w'.streams, s, t)
      ensures exists h: Name :: Holds(w', h, s, t)
    {
      var h: Name :| Holds(w, h, s, t);
      assert Holds(w', if h == from then to else h, s, t);
    }
    forall h: Name, h': Name, s: int, s': int, t: nat | Holds(w', h, s, t) && Holds(w', h', s', t)
      ensures h == h'
    {
      assert Holds(w, if h == to then from else h, s, t) && Holds(w, if h' == to then from else h', s', t);
    }
  }

  /** Giving back the handle `h` of the ledger takes exactly its token out. */
  lemma ReleaseExact(w: World, h: Name)
    requires Ledger(w) && h in w.handles
    ensures forall s: int, t: nat :: Registered(Released(w.streams, w.handles[h]), s, t) <==>
                           Registered(w.streams, s, t) && w.handles[h] != Active(s, t)
  {
    if w.handles[h].Active? {
      assert Holds(w, h, w.handles[h].sensor, w.handles[h].token);
      assert Registered(w.streams, w.handles[h].sensor, w.handles[h].token);
    }
    forall s: int, t: nat
      ensures Registered(Released(w.streams, w.handles[h]), s, t) <==>
              Registered(w.streams, s, t) && w.handles[h] != Active(s, t)
    {
      ReleasedExactly(w.streams, w.handles[h], s, t);
    }
  }

  lemma SubscribeKeepsLedger(w: World, op: Op)
    requires Ledger(w) && Possible(w, op) && op.Subscribe?
    ensures Ledger(Step(w, op))
  {
    var w' := Step(w, op);
    forall s: int, t: nat
      ensures Registered(w'.streams, s, t) <==> Registered(w.streams, s, t) || w'.handles[op.into] == Active(s, t)
    {
      SubscribedExactly(w.streams, w.next, op.sensor, op.size, op.cb, op.starts, op.alive, s, t);
    }
    SubscribedExactly(w.streams, w.next, op.sensor, op.size, op.cb, op.starts, op.alive, op.sensor, w.next);
    forall s: int, t: nat | Registered(w'.streams, s, t)
      ensures exists h: Name :: Holds(w', h, s, t)
    {
      if Registered(w.streams, s, t) {
        var h: Name :| Holds(w, h, s, t);
        assert Holds(w', h, s, t);
      } else {
        assert Holds(w', op.into, s, t);
      }
    }
    forall h: Name, s: int, t: nat | Holds(w', h, s, t)
      ensures if h == op.into then t == w.next else Holds(w, h, s, t) && t < w.next
    {
      if h != op.into {
        assert Holds(w, h, s, t) && Registered(w.streams, s, t);
      }
    }
  }

  lemma StepKeepsLedger(w: World, op: Op)
    requires Ledger(w) && Possible(w, op)
    ensures Ledger(Step(w, op)) && w.next <= Step(w, op).next
  {
    var w' := Step(w, op);
    match op
    case Construct(into) =>
      LedgerMoves(w, w', Inactive, into, into);
    case Subscribe(_, _, _, _, _, _) =>
      SubscribeKeepsLedger(w, op);
    case MoveConstruct(into, from) =>
      LedgerMoves(w, w', Inactive, from, into);
    case MoveAssign(to, from) =>
      if to != from {
        ReleaseExact(w, to);
        forall h: Name, s: int, t: nat | Holds(w', h, s, t)
          ensures w.handles[to] != Active(s, t) && Holds(w, if h == to then from else h, s, t)
        {
          OneHolder(w, to, if h == to then from else h, s, t);
        }
        LedgerMoves(w, w', w.handles[to], from, to);
      }
    case Reset(h) =>
      ReleaseExact(w, h);
      forall h': Name, s: int, t: nat | Holds(w', h', s, t)
        ensures w.handles[h] != Active(s, t) && Holds(w, h', s, t)
      {
        OneHolder(w, h, h', s, t);
      }
      LedgerMoves(w, w', w.handles[h], h, h);
    case Destroy(h) =>
      ReleaseExact(w, h);
      forall h': Name, s: int, t: nat | Holds(w', h', s, t)
        ensures w.handles[h] != Active(s, t) && Holds(w, h', s, t)
      {
        OneHolder(w, h, h', s, t);
      }
      LedgerMoves(w, w', w.handles[h], h, h);
  }

  lemma OneHolder(w: World, h: Name, h': Name, s: int, t: nat)
    requires Ledger(w) && h in w.handles
    ensures Holds(w, h', s, t) && w.handles[h] == Active(s, t) ==> h' == h
  {
    if w.handles[h] == Active(s, t) {
      assert Holds(w, h, s, t);
    }
  }

  /** Over every history the registered tokens are exactly the held ones. */
  lemma {:induction false} HistoryKeepsLedger(ops: seq<Op>)
    requires History(ops)
    ensures Ledger(Run(ops))
  {
    if ops != [] {
      HistoryKeepsLedger(ops[..|ops| - 1]);
      StepKeepsLedger(Run(ops[..|ops| - 1]), ops[|ops| - 1]);
    }
  }

  lemma HistoryExtends(ops: seq<Op>, op: Op)
    requires History(ops) && Possible(Run(ops), op)
    ensures History(ops + [op]) && Run(ops + [op]) == Step(Run(ops), op)
  {
    assert (ops + [op])[..|ops|] == ops;
  }

  lemma {:induction false} HistoryPrefix(ops: seq<Op>, n: nat)
    requires History(ops) && n <= |ops|
    ensures History(ops[..n])
  {
    if n < |ops| {
      HistoryPrefix(ops[..|ops| - 1], n);
      assert ops[..|ops| - 1][..n] == ops[..n];
    } else {
      assert ops[..n] == ops;
    }
  }

  /** The token the subscription at position `n` hands out, if it hands out one. */
  ghost function Issued(ops: seq<Op>, n: nat): Option<nat>
    requires History(ops) && n < |ops|
  {
    HistoryPrefix(ops, n + 1);
    assert ops[..n + 1][..n] == ops[..n];
    if !ops[n].Subscribe? then None
    else
      var h := Run(ops[..n + 1]).handles[ops[n].into];
      if h.Active? then Some(h.token) else None
  }

  lemma {:induction false} NextGrows(ops: seq<Op>, i: nat, j: nat)
    requires History(ops) && i <= j <= |ops|
    ensures History(ops[..i]) && History(ops[..j]) && Run(ops[..i]).next <= Run(ops[..j]).next
  {
    HistoryPrefix(ops, i);
    HistoryPrefix(ops, j);
    if i < j {
      NextGrows(ops, i, j - 1);
      HistoryKeepsLedger(ops[..j - 1]);
      assert ops[..j][..j - 1] == ops[..j - 1];
      StepKeepsLedger(Run(ops[..j - 1]), ops[j - 1]);
    }
  }

  lemma IssuedIsNext(ops: seq<Op>, n: nat)
    requires History(ops) && n < |ops| && Issued(ops, n).Some?
    ensures History(ops[..n]) && History(ops[..n + 1])
    ensures Issued(ops, n) == Some(Run(ops[..n]).next) && Run(ops[..n + 1]).next == Run(ops[..n]).next + 1
  {
    HistoryPrefix(ops, n);
    HistoryPrefix(ops, n + 1);
    assert ops[..n + 1][..n] == ops[..n];
  }

  /** No operation closes a stream, changes its size, or changes whom a token calls back. */
  lemma StepKeepsStreams(w: World, op: Op, s: int, t: nat)
    requires Ledger(w) && Possible(w, op)
    ensures s in w.streams ==>
              && s in Step(w, op).streams
              && Step(w, op).streams[s].width == w.streams[s].width
              && Step(w, op).streams[s].height == w.streams[s].height
              && Step(w, op).streams[s].fps == w.streams[s].fps
    ensures Registered(Step(w, op).streams, s, t) && t < w.next ==>
              && Registered(w.streams, s, t)
              && Step(w, op).streams[s].subscribers[t] == w.streams[s].subscribers[t]
  {
    hide Subscribed, Released, Ledger;
    match op
    case Subscribe(_, sensor, size, cb, starts, alive) =>
      NextIsNew(w, sensor);
      SubscribedExactly(w.streams, w.next, sensor, size, cb, starts, alive, s, t);
      SubscribedStreams(w.streams, w.next, sensor, size, cb, starts, alive, s, t);
    case MoveAssign(to, _) => ReleasedStreams(w.streams, w.handles[to], s, t);
    case Reset(h) => ReleasedStreams(w.streams, w.handles[h], s, t);
    case Destroy(h) => ReleasedStreams(w.streams, w.handles[h], s, t);
    case _ =>
  }

  lemma NextIsNew(w: World, sensor: int)
    requires Ledger(w)
    ensures w.next > 0 && !Registered(w.streams, sensor, w.next)
  {
  }

  /** As long as a token is registered it calls back whoever subscribed for it, and the stream it
      is registered at has the size it was opened with. */
  lemma {:induction false} CallbackStays(ops: seq<Op>, n: nat, m: nat)
    requires History(ops) && n < m <= |ops| && Issued(ops, n).Some?
    ensures History(ops[..n]) && History(ops[..m])
    ensures var t, s, w := Issued(ops, n).value, ops[n].sensor, Run(ops[..m]);
            && ops[n].cb.Some? && t < w.next && s in w.streams
            && (Registered(w.streams, s, t) ==> w.streams[s].subscribers[t] == ops[n].cb.value)
            && (s !in Run(ops[..n]).streams ==>
                  (w.streams[s].width, w.streams[s].height, w.streams[s].fps) == ops[n].size)
  {
    IssuedIsNext(ops, n);
    HistoryPrefix(ops, m - 1);
    HistoryPrefix(ops, m);
    HistoryKeepsLedger(ops[..m - 1]);
    assert ops[..m][..m - 1] == ops[..m - 1];
    var w, op, t, s := Run(ops[..m - 1]), ops[m - 1], Issued(ops, n).value, ops[n].sensor;
    if m == n + 1 {
      NextIsNew(w, s);
      SubscribedExactly(w.streams, w.next, s, op.size, op.cb, op.starts, op.alive, s, t);
      SubscribedStreams(w.streams, w.next, s, op.size, op.cb, op.starts, op.alive, s, t);
      hide Subscribed, Ledger;
    } else {
      CallbackStays(ops, n, m - 1);
      StepKeepsStreams(w, op, s, t);
      StepKeepsLedger(w, op);
      hide Step, Ledger;
    }
  }

  /** No token is handed out twice. */
  lemma TokensAreNeverReused(ops: seq<Op>, i: nat, j: nat)
    requires History(ops) && i < j < |ops|
    requires Issued(ops, i).Some? && Issued(ops, j).Some?
    ensures Issued(ops, i).value < Issued(ops, j).value
  {
    IssuedIsNext(ops, i);
    IssuedIsNext(ops, j);
    NextGrows(ops, i + 1, j);
  }
}
