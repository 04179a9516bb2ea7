/** The hub, its RAII handles and a session's camera handle as objects
    (camera_hub.cpp, control_message_dispatcher.cpp). */
module CameraSubscriptions {
  import opened Common
  import opened CameraHub

  class Hub {
    var streams: Streams
    var nextToken: nat
    ghost var history: seq<Op>
    ghost var objects: map<Name, Subscription>

    /** Hub and handle objects are where the operations so far lead. */
    ghost predicate Valid()
      reads this, objects.Values
    {
      && History(history)
      && streams == Run(history).streams && nextToken == Run(history).next
      && objects.Keys == Run(history).handles.Keys
      && forall h :: h in objects ==>
           h < |history| && objects[h].Mirrors(this, h, Run(history).handles[h])
    }

    constructor ()
      ensures Valid() && history == []
    {
      streams, nextToken := map[], 1;
      history, objects := [], map[];
    }

    ghost method Record(op: Op)
      requires History(history) && Possible(Run(history), op)
      modifies this`history
      ensures history == old(history) + [op] && History(history)
      ensures Run(history) == Step(Run(old(history)), op)
    {
      HistoryExtends(history, op);
      history := history + [op];
    }

    /** The operation that made the object `s`. */
    ghost method Enlist(s: Subscription, op: Op)
      requires History(history) && Possible(Run(history), op)
      modifies this`history, this`objects
      ensures objects == old(objects)[|old(history)| := s]
      ensures history == old(history) + [op] && History(history)
      ensures Run(history) == Step(Run(old(history)), op)
    {
      objects := objects[|history| := s];
      Record(op);
    }

    method Unsubscribe(sensor: int, token: nat)
      modifies this`streams
      ensures streams == Unsubscribed(old(streams), sensor, token)
    {
      if token == 0 {
        return;
      }
      if sensor !in streams {
        return;
      }
      var stream := streams[sensor];
      streams := streams[sensor := stream.(subscribers := stream.subscribers - {token})];
    }

    /** The subscriber is registered before the camera is started; a camera that does not
        start takes its new stream, and the subscriber, away again. */
    method Register(sensor: int, width: int, height: int, fps: int, cb: Option<Callback>, starts: bool, alive: bool)
      returns (handle: Handle)
      modifies this`streams, this`nextToken
      ensures (streams, nextToken, handle) ==
              Subscribed(old(streams), old(nextToken), sensor, (width, height, fps), cb, starts, alive)
    {
      if cb.None? {
        return Inactive;
      }
      var needStart := sensor !in streams;
      if needStart {
        streams := streams[sensor := Stream(width, height, fps, map[])];
      }
      var token := nextToken;
      nextToken := nextToken + 1;
      var stream := streams[sensor];
      streams := streams[sensor := stream.(subscribers := stream.subscribers[token := cb.value])];
      ghost var added := old(streams)[sensor := streams[sensor]];
      assert streams == added;
      if needStart {
        if !starts {
          streams := streams - {sensor};
          return Inactive;
        }
      }
      if !alive {
        Unsubscribe(sensor, token);
        return Inactive;
      }
      return Active(sensor, token);
    }

    /** The handle object goes to the caller, which Subscribe returns by value. */
    method SubscribeTo(sensor: int, width: int, height: int, fps: int, cb: Option<Callback>,
                       starts: bool, alive: bool)
      returns (subscription: Subscription)
      requires Valid()
      modifies this
      ensures Valid() && fresh(subscription) && subscription.Listed() && subscription.home == this
      ensures objects == old(objects)[|old(history)| := subscription]
      ensures history == old(history) +
                         [Op.Subscribe(|old(history)|, sensor, (width, height, fps), cb, starts, alive)]
      ensures (streams, nextToken, subscription.Held()) ==
              Subscribed(old(streams), old(nextToken), sensor, (width, height, fps), cb, starts, alive)
    {
      var handle := Register(sensor, width, height, fps, cb, starts, alive);
      if handle.Active? {
        subscription := new Subscription.Holding(this, handle.sensor, handle.token);
      } else {
        subscription := new Subscription.Blank(this);
      }
      Enlist(subscription, Op.Subscribe(|history|, sensor, (width, height, fps), cb, starts, alive));
    }
  }

  class Subscription {
    var hub: Hub?
    var sensorId: int
    var token: nat
    ghost const home: Hub?
    ghost const name: Name

    function Held(): Handle
      reads this
    {
      if hub == null then Inactive else Active(sensorId, token)
    }

    ghost predicate Mirrors(hub: Hub, h: Name, handle: Handle)
      reads this
    {
      home == hub && name == h && (this.hub == null || this.hub == hub) && Held() == handle
    }

    /** The object is one of those its hub's history speaks of. */
    ghost predicate Listed()
      reads home
    {
      home != null && name in home.objects && home.objects[name] == this
    }

    ghost predicate Placed()
      reads this, home, if home == null then {} else home.objects.Values
    {
      if home == null then hub == null else home.Valid() && Listed()
    }

    constructor Blank(ghost home: Hub)
      ensures Held() == Inactive && hub == null && this.home == home && name == |home.history|
    {
      hub, sensorId, token := null, 0, 0;
      this.home, name := home, |home.history|;
    }

    constructor Holding(hub: Hub, sensorId: int, token: nat)
      ensures Held() == Active(sensorId, token) && this.hub == home == hub && name == |hub.history|
    {
      this.hub, this.sensorId, this.token := hub, sensorId, token;
      home, name := hub, |hub.history|;
    }

    /** A handle object without a handle, in a process with or without a hub. */
    constructor Empty(ghost home: Hub?)
      requires home != null ==> home.Valid()
      modifies home
      ensures this.home == home && Held() == Inactive && hub == null
      ensures home != null ==>
                && home.Valid() && Listed()
                && home.history == old(home.history) + [Op.Construct(|old(home.history)|)]
                && home.objects == old(home.objects)[|old(home.history)| := this]
                && home.streams == old(home.streams) && home.nextToken == old(home.nextToken)
    {
      hub, sensorId, token := null, 0, 0;
      this.home, name := home, if home == null then 0 else |home.history|;
      new;
      if home != null {
        home.Enlist(this, Op.Construct(name));
      }
    }

    /** What a move leaves behind. */
    method GiveAway()
      modifies this
      ensures hub == null
    {
      hub := null;
      sensorId := 0;
      token := 0;
    }

    /** Move construction takes the handle over and leaves the other object without one. */
    constructor Moved(other: Subscription)
      requires other.Listed() && other.home.Valid()
      modifies other, other.home
      ensures home == other.home && home.Valid() && Listed()
      ensures home.history == old(other.home.history) + [Op.MoveConstruct(|old(other.home.history)|, other.name)]
      ensures Held() == old(other.Held()) && other.Held() == Inactive
    {
      hide Subscribed, Unsubscribed, History, Run, Released, Step;
      hub, sensorId, token := other.hub, other.sensorId, other.token;
      home, name := other.home, |other.home.history|;
      new;
      assert forall h :: h in home.objects && h != other.name ==> home.objects[h] != other;
      MoveConstructs(Run(home.history), name, other.name);
      other.GiveAway();
      home.Enlist(this, Op.MoveConstruct(name, other.name));
    }

    method Reset()
      requires Placed()
      modifies this, home
      ensures Placed() && Held() == Inactive
      ensures home != null ==>
                && home.history == old(home.history) + [Op.Reset(name)]
                && home.objects == old(home.objects) && home.nextToken == old(home.nextToken)
                && home.streams == Released(old(home.streams), old(Held()))
    {
      hide Subscribed, Unsubscribed, History, Run;
      if hub != null {
        hub.Unsubscribe(sensorId, token);
        hub := null;
        sensorId := 0;
        token := 0;
      }
      if home != null {
        home.Record(Op.Reset(name));
      }
    }

    /** The destructor resets; then the object is no more. */
    method Destroy()
      requires Listed() && home.Valid()
      modifies this, home
      ensures home.Valid() && home.history == old(home.history) + [Op.Reset(name), Op.Destroy(name)]
      ensures home.objects == old(home.objects) - {name} && home.nextToken == old(home.nextToken)
      ensures home.streams == Released(old(home.streams), old(Held()))
    {
      hide Subscribed, Unsubscribed, History, Run;
      Reset();
      home.objects := home.objects - {name};
      home.Record(Op.Destroy(name));
      assert home.history == old(home.history) + [Op.Reset(name), Op.Destroy(name)];
    }

    method Receive(other: Subscription)
      requires other != this
      modifies this, other
      ensures hub == old(other.hub) && Held() == old(other.Held())
      ensures other.hub == null
    {
      hub := other.hub;
      sensorId := other.sensorId;
      token := other.token;
      other.GiveAway();
    }

    /** An object without a handle takes over that of another one. */
    method Take(other: Subscription)
      requires Listed() && home.Valid() && other.Listed() && other.home == home
      requires other != this && Held() == Inactive
      modifies this, home, other
      ensures Listed() && home.Valid() && home.history == old(home.history) + [Op.MoveAssign(name, other.name)]
      ensures home.objects == old(home.objects) && home.nextToken == old(home.nextToken)
      ensures home.streams == old(home.streams)
      ensures Held() == old(other.Held()) && other.Held() == Inactive
    {
      hide Subscribed, Unsubscribed, History, Run, Released, Step;
      assert name != other.name;
      assert forall h :: h in home.objects && h != name && h != other.name ==>
               home.objects[h] != this && home.objects[h] != other;
      MoveAssignEmpty(Run(home.history), name, other.name);
      Receive(other);
      home.Record(Op.MoveAssign(name, other.name));
    }

    /** The handle held so far is given back, the other one taken over; assigning a handle to
        itself does nothing. */
    method MoveAssign(other: Subscription)
      requires Listed() && home.Valid() && other.Listed() && other.home == home
      modifies this, home, other
      ensures Listed() && home.Valid() && home.objects == old(home.objects) && home.nextToken == old(home.nextToken)
      ensures home.history == old(home.history) +
                              if this == other then [Op.MoveAssign(name, name)]
                              else [Op.Reset(name), Op.MoveAssign(name, other.name)]
      ensures Held() == old(other.Held()) && (this != other ==> other.Held() == Inactive)
      ensures home.streams == if this == other then old(home.streams) else Released(old(home.streams), old(Held()))
    {
      hide Subscribed, Unsubscribed, History, Run, Released, Step;
      if this != other {
        Reset();
        Take(other);
        assert home.history == old(home.history) + [Op.Reset(name), Op.MoveAssign(name, other.name)];
      } else {
        MoveAssignSelf(Run(home.history), name);
        home.Record(Op.MoveAssign(name, name));
      }
    }
  }

  lemma MoveAssignSelf(w: World, h: Name)
    requires h in w.handles
    ensures Step(w, Op.MoveAssign(h, h)) == w
  {
  }

  lemma MoveAssignEmpty(w: World, to: Name, from: Name)
    requires to in w.handles && from in w.handles && to != from && w.handles[to] == Inactive
    ensures Step(w, Op.MoveAssign(to, from)) ==
            World(w.streams, w.next, w.handles[to := w.handles[from]][from := Inactive])
  {
  }

  lemma MoveConstructs(w: World, into: Name, from: Name)
    requires into !in w.handles && from in w.handles
    ensures Step(w, Op.MoveConstruct(into, from)) ==
            World(w.streams, w.next, w.handles[into := w.handles[from]][from := Inactive])
  {
  }

  /** So in every process the tokens registered at a hub are exactly those the handle objects
      hold, each held by one object. */
  lemma HubKeepsLedger(hub: Hub)
    requires hub.Valid()
    ensures forall s: int, t: nat :: Registered(hub.streams, s, t) <==>
                                     exists x :: x in hub.objects.Values && x.Held() == Active(s, t)
    ensures forall x, y ::
              (x in hub.objects.Values && y in hub.objects.Values && x.Held().Active? && y.Held().Active?
               && x.Held().token == y.Held().token) ==> x == y
  {
    var w := Run(hub.history);
    HistoryKeepsLedger(hub.history);
    forall s: int, t: nat
      ensures Registered(hub.streams, s, t) <==> exists x :: x in hub.objects.Values && x.Held() == Active(s, t)
    {
      if Registered(hub.streams, s, t) {
        var h: Name :| Holds(w, h, s, t);
        assert hub.objects[h] in hub.objects.Values && hub.objects[h].Held() == Active(s, t);
      }
      if x :| x in hub.objects.Values && x.Held() == Active(s, t) {
        assert Holds(w, x.name, s, t);
      }
    }
    forall x, y | x in hub.objects.Values && y in hub.objects.Values && x.Held().Active? &&
                  y.Held().Active? && x.Held().token == y.Held().token
      ensures x == y
    {
      assert Holds(w, x.name, x.Held().sensor, x.Held().token) && Holds(w, y.name, y.Held().sensor, y.Held().token);
    }
  }

  /** What the steps of the request handlers need to know about the tokens. */
  lemma TokensBelowNext(hub: Hub)
    requires hub.Valid()
    ensures hub.nextToken > 0
    ensures forall s: int, t: nat :: Registered(hub.streams, s, t) ==> 0 < t < hub.nextToken
    ensures forall h, s: int, t: nat :: h in hub.objects && hub.objects[h].Held() == Active(s, t) ==>
                                        Registered(hub.streams, s, t)
  {
    HistoryKeepsLedger(hub.history);
    forall h, s: int, t: nat | h in hub.objects && hub.objects[h].Held() == Active(s, t)
      ensures Registered(hub.streams, s, t)
    {
      assert Holds(Run(hub.history), h, s, t);
    }
  }

  /** Resetting the session's handle and subscribing anew leaves of its tokens the new one. */
  lemma NewTokenOnly(before: Streams, held: Handle, next: nat, sensor: int, size: Size, starts: bool)
    requires next > 0 && (held.Active? ==> held.token > 0)
    requires forall s: int, t: nat :: Registered(before, s, t) ==> t < next
    ensures var (streams, _, handle) := Subscribed(Released(before, held), next, sensor, size, Some(0), starts, true);
            && (handle.Active? && sensor !in before ==>
                  && sensor in streams && streams[sensor].width == size.0 && streams[sensor].height == size.1
                  && streams[sensor].fps == size.2)
            && (handle.Active? <==> sensor in before || starts) && (handle.Active? ==> handle == Active(sensor, next))
            && forall s: int, t: nat :: Registered(streams, s, t) <==>
                 (Registered(before, s, t) && held != Active(s, t)) || handle == Active(s, t)
  {
    hide Subscribed, Released;
    var released := Released(before, held);
    assert sensor in released <==> sensor in before by { ReleasedKeepsSensors(before, held, sensor); }
    ReleasedExactly(before, held, sensor, next);
    forall s: int, t: nat
      ensures var (streams, _, handle) := Subscribed(released, next, sensor, size, Some(0), starts, true);
              && (Registered(streams, s, t) <==>
                  (Registered(before, s, t) && held != Active(s, t)) || handle == Active(s, t))
    {
      ReleasedExactly(before, held, s, t);
      SubscribedExactly(released, next, sensor, size, Some(0), starts, true, s, t);
    }
    SubscribedExactly(released, next, sensor, size, Some(0), starts, true, sensor, next);
    SubscribedStreams(released, next, sensor, size, Some(0), starts, true, sensor, next);
  }

  lemma ReleasedKeepsSensors(streams: Streams, h: Handle, sensor: int)
    ensures sensor in Released(streams, h) <==> sensor in streams
  {
  }

  /** The camera part of a WebRTC session's state, in a process with or without a hub. */
  class SessionState {
    const cameraSubscription: Subscription

    ghost predicate Valid()
      reads this, cameraSubscription, cameraSubscription.home
      reads if cameraSubscription.home == null then {} else cameraSubscription.home.objects.Values
    {
      cameraSubscription.Placed()
    }

    function Held(): Handle
      reads this, cameraSubscription
    {
      cameraSubscription.Held()
    }

    constructor (ghost home: Hub?)
      requires home != null ==> home.Valid()
      modifies home
      ensures Valid() && fresh(cameraSubscription) && cameraSubscription.home == home && Held() == Inactive
    {
      cameraSubscription := new Subscription.Empty(home);
    }

    /** Without a hub the request is refused and nothing changes. Otherwise, of the tokens this
        session held, before and after, only the one it holds now is registered, and everybody
        else's tokens are untouched. So a session that only starts and stops cameras never holds
        more than one. */
    method HandleStartCameraStream(hub: Hub?, sensor: int, width: int, height: int, fps: int, starts: bool)
      returns (accepted: bool)
      requires Valid() && hub == cameraSubscription.home
      modifies cameraSubscription, hub
      ensures Valid()
      ensures hub == null ==> !accepted && Held() == old(Held())
      ensures hub != null ==>
                && (accepted <==> Held().Active?)
                && (accepted <==> sensor in old(hub.streams) || starts)
                && (accepted ==> Held() == Active(sensor, old(hub.nextToken)))
                && (accepted && sensor !in old(hub.streams) ==>
                      && sensor in hub.streams && hub.streams[sensor].width == width
                      && hub.streams[sensor].height == height && hub.streams[sensor].fps == fps)
                && forall s: int, t: nat :: Registered(hub.streams, s, t) <==>
                     (Registered(old(hub.streams), s, t) && old(Held()) != Active(s, t)) || Held() == Active(s, t)
    {
      hide Subscribed, Unsubscribed, Released, History, Step, Run;
      if hub == null {
        return false;
      }
      ghost var held, before := Held(), hub.streams;
      TokensBelowNext(hub);
      cameraSubscription.Reset();
      ghost var next := hub.nextToken;
      var subscription := hub.SubscribeTo(sensor, width, height, fps, Some(0), starts, true);
      ghost var handle := subscription.Held();
      NewTokenOnly(before, held, next, sensor, (width, height, fps), starts);
      accepted := TakeOver(subscription);
    }

    /** The new handle, if there is one, replaces the empty one; the local object dies. */
    method TakeOver(subscription: Subscription) returns (accepted: bool)
      requires Valid() && Held() == Inactive
      requires subscription.Listed() && subscription.home == cameraSubscription.home
      requires subscription != cameraSubscription
      modifies cameraSubscription, subscription, subscription.home
      ensures Valid() && Held() == old(subscription.Held()) && accepted == Held().Active?
      ensures subscription.home.streams == old(subscription.home.streams)
    {
      hide Subscribed, Unsubscribed, History, Run, Step;
      accepted := subscription.hub != null;
      if accepted {
        cameraSubscription.MoveAssign(subscription);
      }
      subscription.Destroy();
    }

    method HandleStopCameraStream()
      requires Valid()
      modifies cameraSubscription, cameraSubscription.home
      ensures Valid() && Held() == Inactive
      ensures var hub := cameraSubscription.home;
              hub != null ==>
                forall s: int, t: nat :: Registered(hub.streams, s, t) <==>
                  Registered(old(hub.streams), s, t) && old(Held()) != Active(s, t)
    {
      ghost var held := Held();
      if cameraSubscription.home != null {
        TokensBelowNext(cameraSubscription.home);
      }
      cameraSubscription.Reset();
      if cameraSubscription.home != null {
        forall s: int, t: nat
          ensures Registered(cameraSubscription.home.streams, s, t) <==>
                  Registered(old(cameraSubscription.home.streams), s, t) && held != Active(s, t)
        {
          ReleasedExactly(old(cameraSubscription.home.streams), held, s, t);
        }
      }
    }
  }
}
