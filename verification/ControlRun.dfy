/** A connection at work, step by step: what the threads of the control client do when nothing
    fails, up to the end of the read loop. */
module ControlRun {
  import opened Common
  import opened ControlProgram
  import opened ControlInvariant
  import opened ControlWatchdog

  /** What such a run depends on; nobody stops the client, and nothing is cancelled. */
  datatype Scene = Scene(main: Thread, keepalive: Thread, pump: Thread, mem: Memory)

  function Of(p: Scene, t: ThreadId): Thread {
    match t
    case Main => p.main
    case Keepalive => p.keepalive
    case Pump => p.pump
    case Stopper(_) => Fresh(Off)
  }

  function With(p: Scene, t: ThreadId, th: Thread): Scene {
    match t
    case Main => p.(main := th)
    case Keepalive => p.(keepalive := th)
    case Pump => p.(pump := th)
    case Stopper(_) => p
  }

  predicate Taken(p: Scene, m: Mutex) {
    m in p.main.held || m in p.keepalive.held || m in p.pump.held
  }

  predicate AllFree(p: Scene) {
    p.main.held == p.keepalive.held == p.pump.held == []
  }

  ghost predicate Plays(s: State, p: Scene) {
    && !Over(s) && At(s, Main) == p.main && At(s, Keepalive) == p.keepalive && At(s, Pump) == p.pump
    && s.mem == p.mem && s.log == INIT.log && forall m :: m in s.owner <==> Taken(p, m)
  }

  ghost predicate Now(sched: Schedule, p: Scene) {
    Exec(sched).Some? && Plays(Exec(sched).value, p)
  }

  function Moves(p: Scene, t: ThreadId, move: Move): Option<Scene> {
    match move
    case Goes(loc, mem) => Some(With(p, t, Of(p, t).(loc := loc)).(mem := mem))
    case _ => None
  }

  /** Where a step of the main, keepalive or pump thread leads. */
  function Next(p: Scene, t: ThreadId, c: Choice): Option<Scene>
    requires !t.Stopper?
  {
    var th := Of(p, t);
    match Code(th.loc)
    case Lock(m, next) => if AllFree(p) then Some(With(p, t, th.(loc := next, held := [m]))) else None
    case Unlock(next) =>
      if |th.held| == 1 && AllFree(With(p, t, th.(held := []))) then Some(With(p, t, th.(loc := next, held := [])))
      else None
    case Call(entry, ret) => Some(With(p, t, th.(loc := entry, ret := ret)))
    case Return => Some(With(p, t, th.(loc := th.ret)))
    case Spawn(u, entry, next) =>
      if u == t || u.Stopper? || Of(p, u).held != [] then None
      else Some(With(With(p, u, Fresh(entry)), t, th.(loc := next)))
    case Join(u, next) => if !u.Stopper? && Of(p, u).loc == Off then Some(With(p, t, th.(loc := next))) else None
    case Act =>
      (match th.loc
       case InRun(r) => Moves(p, t, RunAct(th, r, p.mem, c))
       case InKeepalive(k) => Moves(p, t, KeepaliveAct(th, k, p.mem, c))
       case InPump(q) => Moves(p, t, PumpAct(q, p.mem, c))
       case InSend(x) => Some(With(p, t, SendAct(th, x, p.mem, c)))
       case _ => None)
  }

  /** A step that sets one thread, the members and the owners. */
  lemma SetPlays(s: State, p: Scene, t: ThreadId, th: Thread, mem: Memory, owner: map<Mutex, ThreadId>)
    requires Plays(s, p) && !t.Stopper?
    requires forall m :: m in owner <==> Taken(With(p, t, th), m)
    ensures Plays(s.(threads := s.threads[t := th], owner := owner, mem := mem), With(p, t, th).(mem := mem))
  {
  }

  /** The owners do not change if the thread holds what it held. */
  lemma SameTaken(p: Scene, t: ThreadId, th: Thread, m: Mutex)
    requires !t.Stopper? && th.held == Of(p, t).held
    ensures Taken(With(p, t, th), m) <==> Taken(p, m)
  {
  }

  lemma StayPlays(s: State, p: Scene, t: ThreadId, th: Thread, mem: Memory)
    requires Plays(s, p) && !t.Stopper? && th.held == Of(p, t).held
    ensures Plays(s.(threads := s.threads[t := th], mem := mem), With(p, t, th).(mem := mem))
  {
    hide Plays, Taken, With, Of;
    forall m
      ensures m in s.owner <==> Taken(With(p, t, th), m)
    {
      SameTaken(p, t, th, m);
      assert m in s.owner <==> Taken(p, m) by { OwnersTaken(s, p, m); }
    }
    SetPlays(s, p, t, th, mem, s.owner);
    assert s.(threads := s.threads[t := th], owner := s.owner, mem := mem) ==
           s.(threads := s.threads[t := th], mem := mem);
  }

  lemma OwnersTaken(s: State, p: Scene, m: Mutex)
    requires Plays(s, p)
    ensures m in s.owner <==> Taken(p, m)
  {
  }

  lemma Found(s: State, p: Scene, t: ThreadId)
    requires Plays(s, p) && !t.Stopper?
    ensures At(s, t) == Of(p, t) && s.mem == p.mem && !Over(s)
  {
  }

  lemma ActPlays(s: State, p: Scene, t: ThreadId, c: Choice)
    requires Plays(s, p) && !t.Stopper? && Code(Of(p, t).loc) == Act && Next(p, t, c).Some?
    ensures ActStep(s, t, c).Some? && Plays(ActStep(s, t, c).value, Next(p, t, c).value)
  {
    hide RunAct, KeepaliveAct, PumpAct, SendAct, CancelAct, Code, Scope, Plays, Running, At, Of, With, Over;
    Found(s, p, t);
    var th := Of(p, t);
    match th.loc
    case InRun(r) => MovePlays(s, p, t, RunAct(th, r, p.mem, c));
    case InKeepalive(k) => MovePlays(s, p, t, KeepaliveAct(th, k, p.mem, c));
    case InPump(q) => MovePlays(s, p, t, PumpAct(q, p.mem, c));
    case InSend(x) =>
      SendActScope(th, x, p.mem, c);
      StayPlays(s, p, t, SendAct(th, x, p.mem, c), p.mem);
      SetsNoMem(s, p, t, SendAct(th, x, p.mem, c));
    case _ =>
  }

  lemma SetsNoMem(s: State, p: Scene, t: ThreadId, th: Thread)
    requires Plays(s, p)
    ensures s.(threads := s.threads[t := th], mem := p.mem) == s.(threads := s.threads[t := th])
    ensures With(p, t, th).(mem := p.mem) == With(p, t, th)
  {
  }

  lemma MovePlays(s: State, p: Scene, t: ThreadId, move: Move)
    requires Plays(s, p) && !t.Stopper? && Moves(p, t, move).Some?
    ensures MoveStep(s, t, move).Some? && Plays(MoveStep(s, t, move).value, Moves(p, t, move).value)
  {
    hide Plays, At, Of, With, Over;
    Found(s, p, t);
    StayPlays(s, p, t, Of(p, t).(loc := move.loc), move.mem);
  }

  lemma LockPlays(s: State, p: Scene, t: ThreadId, m: Mutex, next: Loc)
    requires Plays(s, p) && !t.Stopper? && AllFree(p)
    ensures var th := Of(p, t).(loc := next, held := [m]);
            && m !in s.owner && Of(p, t).held + [m] == [m]
            && Plays(s.(threads := s.threads[t := th], owner := s.owner[m := t]), With(p, t, th))
  {
    var th := Of(p, t).(loc := next, held := [m]);
    assert !Taken(p, m) && Of(p, t).held == [];
    SetPlays(s, p, t, th, p.mem, s.owner[m := t]);
  }

  lemma UnlockPlays(s: State, p: Scene, t: ThreadId, next: Loc)
    requires Plays(s, p) && !t.Stopper? && |Of(p, t).held| == 1 && AllFree(With(p, t, Of(p, t).(held := [])))
    ensures var th := Of(p, t).(loc := next, held := []);
            && Of(p, t).held[..0] == []
            && Plays(s.(threads := s.threads[t := th], owner := s.owner - {Of(p, t).held[0]}), With(p, t, th))
  {
    var th, m := Of(p, t).(loc := next, held := []), Of(p, t).held[0];
    assert Of(p, t).held == [m];
    forall x
      ensures x in s.owner - {m} <==> Taken(With(p, t, th), x)
    {
      OwnersTaken(s, p, x);
    }
    SetPlays(s, p, t, th, p.mem, s.owner - {m});
  }

  lemma SpawnPlays(s: State, p: Scene, t: ThreadId, u: ThreadId, entry: Loc, next: Loc)
    requires Plays(s, p) && !t.Stopper? && !u.Stopper? && u != t && Of(p, u).held == []
    ensures Plays(s.(threads := s.threads[u := Fresh(entry)][t := Of(p, t).(loc := next)]),
                  With(With(p, u, Fresh(entry)), t, Of(p, t).(loc := next)))
  {
    hide Plays;
    StayPlays(s, p, u, Fresh(entry), p.mem);
    SetsNoMem(s, p, u, Fresh(entry));
    var s', p' := s.(threads := s.threads[u := Fresh(entry)]), With(p, u, Fresh(entry));
    StayPlays(s', p', t, Of(p, t).(loc := next), p.mem);
    SetsNoMem(s', p', t, Of(p, t).(loc := next));
  }

  lemma JumpPlays(s: State, p: Scene, t: ThreadId, th: Thread)
    requires Plays(s, p) && !t.Stopper? && th.held == Of(p, t).held
    ensures Plays(s.(threads := s.threads[t := th]), With(p, t, th))
  {
    hide Plays, With, Of;
    StayPlays(s, p, t, th, p.mem);
    SetsNoMem(s, p, t, th);
  }

  lemma TextPlays(s: State, p: Scene, t: ThreadId, c: Choice)
    requires Plays(s, p) && !t.Stopper? && Code(Of(p, t).loc) != Act && Next(p, t, c).Some?
    ensures ThreadStep(s, t, c).Some? && Plays(ThreadStep(s, t, c).value, Next(p, t, c).value)
  {
    hide ActStep, Code, Plays, At, Of, With, Over, AllFree;
    Found(s, p, t);
    var th := Of(p, t);
    match Code(th.loc)
    case Lock(m, next) => LockPlays(s, p, t, m, next);
    case Unlock(next) => UnlockPlays(s, p, t, next);
    case Call(entry, ret) => JumpPlays(s, p, t, th.(loc := entry, ret := ret));
    case Return => JumpPlays(s, p, t, th.(loc := th.ret));
    case Spawn(u, entry, next) => SpawnPlays(s, p, t, u, entry, next);
    case Join(u, next) =>
      Found(s, p, u);
      JumpPlays(s, p, t, th.(loc := next));
    case Act =>
  }

  /** One step. */
  lemma Play(sched: Schedule, p: Scene, t: ThreadId, c: Choice, p': Scene) returns (next: Schedule, q: Scene)
    requires Now(sched, p) && !t.Stopper? && Next(p, t, c) == Some(p')
    ensures Now(next, p') && q == p' && next == sched + [(ThreadActor(t), c)]
  {
    next, q := sched + [(ThreadActor(t), c)], p';
    ExecNext(sched, ThreadActor(t), c);
    var s := Exec(sched).value;
    assert At(s, t) == Of(p, t);
    hide Exec, ActStep, Next, Code;
    if Code(Of(p, t).loc) == Act {
      ActPlays(s, p, t, c);
    } else {
      TextPlays(s, p, t, c);
    }
  }

  // ---- The run ----------------------------------------------------------------------------

  /** The main thread at a statement of RunOnce. */
  function AtRun(r: RunLoc, ret: Loc, ok: bool, target: Option<nat>): Thread {
    Thread(InRun(r), ret, [], ok, 0, target)
  }

  /** A helper thread that has sent a message, or one that has not. */
  function Helper(loc: Loc, ret: Loc, sent: bool): Thread {
    Thread(loc, ret, [], sent, 0, if sent then Some(1) else None)
  }

  const NOBODY: Thread := Fresh(Off)
  const STASHED_MAIN: Thread := AtRun(SEND_REGISTER, Off, false, None)
  const READING: Thread := AtRun(LOOP_STOP, InRun(REGISTER_SENT), true, Some(1))
  const ANSWERED: Thread := AtRun(LOOP_STOP, InRun(LOOP_STOP), true, Some(1))
  const NEW_KEEPALIVE: Thread := Helper(InKeepalive(KeepaliveConnection), Off, false)
  const NEW_PUMP: Thread := Helper(InPump(PumpConnection), Off, false)
  const OLD_KEEPALIVE: Thread := Helper(InKeepalive(KeepaliveConnection), InKeepalive(KeepaliveSent), true)
  const OLD_PUMP: Thread := Helper(InPump(PumpConnection), InPump(PumpNext), true)
  const STOPPING: Memory := STASHED.(connectionStop := true)

  lemma BeforeRegister(sched: Schedule)
    requires Here(sched, Resting(SEND_REGISTER, Off, None, STASHED, INIT.log))
    ensures Now(sched, Scene(STASHED_MAIN, NOBODY, NOBODY, STASHED))
  {
    hide Exec;
  }

  /** Before step `i` the thread is in Write. */
  ghost predicate WritesAt(sched: Schedule, i: nat, t: ThreadId) {
    i <= |sched| && Exec(sched[..i]).Some? && At(Exec(sched[..i]).value, t).loc == InSend(Writing)
  }

  lemma InWrite(sched: Schedule, p: Scene, t: ThreadId)
    requires Now(sched, p) && !t.Stopper? && Of(p, t).loc == InSend(Writing)
    ensures WritesAt(sched, |sched|, t)
  {
    assert sched[..|sched|] == sched;
    Found(Exec(sched).value, p, t);
    hide Exec;
  }

  lemma WasIn(writing: Schedule, sched: Schedule, t: ThreadId)
    requires writing <= sched && WritesAt(writing, |writing|, t)
    ensures WritesAt(sched, |writing|, t)
  {
    assert sched[..|writing|] == writing == writing[..|writing|];
    hide Exec;
  }

  /** Register is sent and acknowledged, and the helper threads start. */
  lemma Registers(before: Schedule) returns (sched: Schedule)
    requires Now(before, Scene(STASHED_MAIN, NOBODY, NOBODY, STASHED))
    ensures Now(sched, Scene(READING, NEW_KEEPALIVE, NEW_PUMP, STASHED))
  {
    hide Now, Exec;
    sched := before;
    var p := Scene(STASHED_MAIN, NOBODY, NOBODY, STASHED);
    sched, p := Play(sched, p, Main, First, p.(main := p.main.(loc := InSend(LockWrite), ret := InRun(REGISTER_SENT))));
    sched, p := Play(sched, p, Main, First, p.(main := p.main.(loc := InSend(TestStream), held := [WriteMutex])));
    sched, p := Play(sched, p, Main, First, p.(main := p.main.(loc := InSend(StartWrite))));
    sched, p := Play(sched, p, Main, First, p.(main := p.main.(loc := InSend(Writing), target := Some(1))));
    sched, p := Play(sched, p, Main, First, p.(main := p.main.(loc := InSend(UnlockWrite), ok := true)));
    sched, p := Play(sched, p, Main, First, p.(main := p.main.(loc := InSend(SendReturns), held := [])));
    sched, p := Play(sched, p, Main, First, p.(main := p.main.(loc := InRun(REGISTER_SENT))));
    sched, p := Play(sched, p, Main, First, p.(main := p.main.(loc := InRun(READ_ACK))));
    sched, p := Play(sched, p, Main, First, p.(main := p.main.(loc := InRun(DECLARE_STOP))));
    sched, p := Play(sched, p, Main, First, p.(main := p.main.(loc := InRun(SPAWN_KEEPALIVE))));
    sched, p := Play(sched, p, Main, First, p.(main := p.main.(loc := InRun(SPAWN_PUMP)), keepalive := NEW_KEEPALIVE));
    sched, p := Play(sched, p, Main, First, p.(main := p.main.(loc := InRun(LOOP_STOP)), pump := NEW_PUMP));
  }

  /** When the interval is over the keepalive thread sends a message; `at` is when it is in Write. */
  lemma KeepaliveSends(before: Schedule) returns (sched: Schedule, at: nat)
    requires Now(before, Scene(READING, NEW_KEEPALIVE, NEW_PUMP, STASHED))
    ensures Now(sched, Scene(READING, OLD_KEEPALIVE, NEW_PUMP, STASHED))
    ensures before <= sched && |before| < at < |sched| && WritesAt(sched, at, Keepalive)
  {
    hide Now, Exec;
    sched := before;
    var p := Scene(READING, NEW_KEEPALIVE, NEW_PUMP, STASHED);
    sched, p := Play(sched, p, Keepalive, First, p.(keepalive := p.keepalive.(loc := InKeepalive(KeepaliveStop))));
    sched, p := Play(sched, p, Keepalive, Second, p.(keepalive := p.keepalive.(loc := InKeepalive(KeepaliveSend))));
    sched, p := Play(sched, p, Keepalive, First,
                         p.(keepalive := p.keepalive.(loc := InSend(LockWrite), ret := InKeepalive(KeepaliveSent))));
    sched, p := Play(sched, p, Keepalive, First,
                         p.(keepalive := p.keepalive.(loc := InSend(TestStream), held := [WriteMutex])));
    sched, p := Play(sched, p, Keepalive, First, p.(keepalive := p.keepalive.(loc := InSend(StartWrite))));
    sched, p := Play(sched, p, Keepalive, First,
                         p.(keepalive := p.keepalive.(loc := InSend(Writing), target := Some(1))));
    at := |sched|;
    ghost var writing := sched;
    InWrite(sched, p, Keepalive);
    sched, p := Play(sched, p, Keepalive, First, p.(keepalive := p.keepalive.(loc := InSend(UnlockWrite), ok := true)));
    sched, p := Play(sched, p, Keepalive, First, p.(keepalive := p.keepalive.(loc := InSend(SendReturns), held := [])));
    sched, p := Play(sched, p, Keepalive, First, p.(keepalive := p.keepalive.(loc := InKeepalive(KeepaliveSent))));
    sched, p := Play(sched, p, Keepalive, First,
                         p.(keepalive := p.keepalive.(loc := InKeepalive(KeepaliveConnection))));
    WasIn(writing, sched, Keepalive);
  }

  /** The pump thread copies the list and sends a candidate. */
  lemma PumpSends(before: Schedule) returns (sched: Schedule, at: nat)
    requires Now(before, Scene(READING, OLD_KEEPALIVE, NEW_PUMP, STASHED))
    ensures Now(sched, Scene(READING, OLD_KEEPALIVE, OLD_PUMP, STASHED))
    ensures before <= sched && |before| < at < |sched| && WritesAt(sched, at, Pump)
  {
    hide Now, Exec;
    sched := before;
    var p := Scene(READING, OLD_KEEPALIVE, NEW_PUMP, STASHED);
    sched, p := Play(sched, p, Pump, First, p.(pump := p.pump.(loc := InPump(PumpStop))));
    sched, p := Play(sched, p, Pump, Second, p.(pump := p.pump.(loc := InPump(LockIds))));
    sched, p := Play(sched, p, Pump, First, p.(pump := p.pump.(loc := InPump(CopyIds), held := [SessionIdsMutex])));
    sched, p := Play(sched, p, Pump, First, p.(pump := p.pump.(loc := InPump(UnlockIds))));
    sched, p := Play(sched, p, Pump, First, p.(pump := p.pump.(loc := InPump(PumpNext), held := [])));
    sched, p := Play(sched, p, Pump, Second, p.(pump := p.pump.(loc := InPump(PumpSend))));
    sched, p := Play(sched, p, Pump, First, p.(pump := p.pump.(loc := InSend(LockWrite), ret := InPump(PumpNext))));
    sched, p := Play(sched, p, Pump, First, p.(pump := p.pump.(loc := InSend(TestStream), held := [WriteMutex])));
    sched, p := Play(sched, p, Pump, First, p.(pump := p.pump.(loc := InSend(StartWrite))));
    sched, p := Play(sched, p, Pump, First, p.(pump := p.pump.(loc := InSend(Writing), target := Some(1))));
    at := |sched|;
    ghost var writing := sched;
    InWrite(sched, p, Pump);
    sched, p := Play(sched, p, Pump, First, p.(pump := p.pump.(loc := InSend(UnlockWrite), ok := true)));
    sched, p := Play(sched, p, Pump, First, p.(pump := p.pump.(loc := InSend(SendReturns), held := [])));
    sched, p := Play(sched, p, Pump, First, p.(pump := p.pump.(loc := InPump(PumpNext))));
    sched, p := Play(sched, p, Pump, First, p.(pump := p.pump.(loc := InPump(PumpConnection))));
    WasIn(writing, sched, Pump);
  }

  /** The main thread reads a session message, edits the list and answers. */
  lemma Answers(before: Schedule) returns (sched: Schedule, at: nat)
    requires Now(before, Scene(READING, OLD_KEEPALIVE, OLD_PUMP, STASHED))
    ensures Now(sched, Scene(ANSWERED, OLD_KEEPALIVE, OLD_PUMP, STASHED))
    ensures before <= sched && |before| < at < |sched| && WritesAt(sched, at, Main)
  {
    hide Now, Exec;
    sched := before;
    var p := Scene(READING, OLD_KEEPALIVE, OLD_PUMP, STASHED);
    sched, p := Play(sched, p, Main, First, p.(main := p.main.(loc := InRun(LOOP_FAILED))));
    sched, p := Play(sched, p, Main, First, p.(main := p.main.(loc := InRun(LOOP_READ))));
    sched, p := Play(sched, p, Main, Second, p.(main := p.main.(loc := InRun(LOCK_LIST))));
    sched, p := Play(sched, p, Main, First, p.(main := p.main.(loc := InRun(EDIT_LIST), held := [SessionIdsMutex])));
    sched, p := Play(sched, p, Main, First, p.(main := p.main.(loc := InRun(UNLOCK_LIST))));
    sched, p := Play(sched, p, Main, First, p.(main := p.main.(loc := InRun(SEND_RESPONSE), held := [])));
    sched, p := Play(sched, p, Main, First, p.(main := p.main.(loc := InSend(LockWrite), ret := InRun(LOOP_STOP))));
    sched, p := Play(sched, p, Main, First, p.(main := p.main.(loc := InSend(TestStream), held := [WriteMutex])));
    sched, p := Play(sched, p, Main, First, p.(main := p.main.(loc := InSend(StartWrite))));
    sched, p := Play(sched, p, Main, First, p.(main := p.main.(loc := InSend(Writing), target := Some(1))));
    at := |sched|;
    ghost var writing := sched;
    InWrite(sched, p, Main);
    sched, p := Play(sched, p, Main, First, p.(main := p.main.(loc := InSend(UnlockWrite), ok := true)));
    sched, p := Play(sched, p, Main, First, p.(main := p.main.(loc := InSend(SendReturns), held := [])));
    sched, p := Play(sched, p, Main, First, p.(main := p.main.(loc := InRun(LOOP_STOP))));
    WasIn(writing, sched, Main);
  }

  /** It answers a message that has nothing to do with the list. */
  lemma Replies(before: Schedule) returns (sched: Schedule)
    requires Now(before, Scene(ANSWERED, OLD_KEEPALIVE, OLD_PUMP, STASHED))
    ensures Now(sched, Scene(ANSWERED, OLD_KEEPALIVE, OLD_PUMP, STASHED))
    ensures before <= sched
  {
    hide Now, Exec;
    sched := before;
    var p := Scene(ANSWERED, OLD_KEEPALIVE, OLD_PUMP, STASHED);
    sched, p := Play(sched, p, Main, First, p.(main := p.main.(loc := InRun(LOOP_FAILED))));
    sched, p := Play(sched, p, Main, First, p.(main := p.main.(loc := InRun(LOOP_READ))));
    sched, p := Play(sched, p, Main, Third, p.(main := p.main.(loc := InRun(SEND_RESPONSE))));
    sched, p := Play(sched, p, Main, First, p.(main := p.main.(loc := InSend(LockWrite), ret := InRun(LOOP_STOP))));
    sched, p := Play(sched, p, Main, First, p.(main := p.main.(loc := InSend(TestStream), held := [WriteMutex])));
    sched, p := Play(sched, p, Main, First, p.(main := p.main.(loc := InSend(StartWrite))));
    sched, p := Play(sched, p, Main, First, p.(main := p.main.(loc := InSend(Writing), target := Some(1))));
    sched, p := Play(sched, p, Main, First, p.(main := p.main.(loc := InSend(UnlockWrite), ok := true)));
    sched, p := Play(sched, p, Main, First, p.(main := p.main.(loc := InSend(SendReturns), held := [])));
    sched, p := Play(sched, p, Main, First, p.(main := p.main.(loc := InRun(LOOP_STOP))));
  }

  /** The main thread reads a message that needs no answer; then the peer closes the stream; the
      helper threads end and are joined. */
  lemma Ends(before: Schedule) returns (sched: Schedule)
    requires Now(before, Scene(ANSWERED, OLD_KEEPALIVE, OLD_PUMP, STASHED))
    ensures Now(sched, Scene(AtRun(CLEANUP_CANCEL, InRun(LOOP_STOP), true, Some(1)),
                             OLD_KEEPALIVE.(loc := Off), OLD_PUMP.(loc := Off), STOPPING))
    ensures before <= sched
  {
    hide Now, Exec;
    sched := before;
    var p := Scene(ANSWERED, OLD_KEEPALIVE, OLD_PUMP, STASHED);
    sched, p := Play(sched, p, Main, First, p.(main := p.main.(loc := InRun(LOOP_FAILED))));
    sched, p := Play(sched, p, Main, First, p.(main := p.main.(loc := InRun(LOOP_READ))));
    sched, p := Play(sched, p, Main, Fourth, p.(main := p.main.(loc := InRun(LOOP_STOP))));
    sched, p := Play(sched, p, Main, First, p.(main := p.main.(loc := InRun(LOOP_FAILED))));
    sched, p := Play(sched, p, Main, First, p.(main := p.main.(loc := InRun(LOOP_READ))));
    sched, p := Play(sched, p, Main, First, p.(main := p.main.(loc := InRun(END_THREADS))));
    sched, p := Play(sched, p, Main, First, p.(main := p.main.(loc := InRun(JOIN_KEEPALIVE)), mem := STOPPING));
    sched, p := Play(sched, p, Keepalive, First, p.(keepalive := p.keepalive.(loc := Off)));
    sched, p := Play(sched, p, Pump, First, p.(pump := p.pump.(loc := Off)));
    sched, p := Play(sched, p, Main, First, p.(main := p.main.(loc := InRun(JOIN_PUMP))));
    sched, p := Play(sched, p, Main, First, p.(main := p.main.(loc := InRun(CLEANUP_CANCEL))));
  }

  lemma StillWrites(before: Schedule, sched: Schedule, i: nat, t: ThreadId)
    requires before <= sched && WritesAt(before, i, t)
    ensures WritesAt(sched, i, t)
  {
    assert sched[..i] == before[..i];
    hide Exec;
  }

  /** There is a run in which a connection does its work: Register, a keepalive message, a
      candidate and an answer are sent, in this order, nothing fails and nothing is cancelled,
      and when the peer closes the stream both helper threads end and the cleanup begins. */
  lemma ConnectionWorks() returns (sched: Schedule, keepalive: nat, pump: nat, answer: nat)
    ensures Exec(sched).Some? && keepalive < pump < answer < |sched|
    ensures WritesAt(sched, keepalive, Keepalive) && WritesAt(sched, pump, Pump) && WritesAt(sched, answer, Main)
    ensures var s := Exec(sched).value;
            && At(s, Main).loc == InRun(CLEANUP_CANCEL) && At(s, Keepalive).loc == Off && At(s, Pump).loc == Off
            && !s.mem.failed && !s.mem.stop && s.log.cancels == []
  {
    assert Here([], Resting(OUTSIDE, Off, None, INIT.mem, INIT.log));
    hide Here, Exec;
    var made := MakesContext([]);
    var stashed := StashesContext(made);
    BeforeRegister(stashed);
    var s1 := Registers(stashed);
    var s2, s3, s4;
    s2, keepalive := KeepaliveSends(s1);
    s3, pump := PumpSends(s2);
    s4, answer := Answers(s3);
    var s5 := Replies(s4);
    sched := Ends(s5);
    StillWrites(s2, sched, keepalive, Keepalive);
    StillWrites(s3, sched, pump, Pump);
    StillWrites(s4, sched, answer, Main);
  }
}
