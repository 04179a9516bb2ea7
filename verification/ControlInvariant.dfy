/** The invariant of the control client's threads, and its proof over all schedules. */
module ControlInvariant {
  import opened Common
  import opened ControlProgram

  // ---- Which thread is where --------------------------------------------------------------

  /** Threads run their own code, and calls return to where they were made. */
  predicate Fits(t: ThreadId, th: Thread) {
    match t
    case Main =>
      (match th.loc
       case InRun(r) => r <= BUMP_GENERATION
       case InSend(_) => th.ret == InRun(REGISTER_SENT) || th.ret == InRun(LOOP_STOP)
       case InCancel(_) => th.ret == InRun(LOCK_MOVE)
       case _ => false)
    case Keepalive =>
      (match th.loc
       case Off => true
       case InKeepalive(_) => true
       case InSend(_) => th.ret == InKeepalive(KeepaliveSent)
       case InCancel(_) => th.ret == InKeepalive(KeepaliveEnd)
       case _ => false)
    case Pump =>
      (match th.loc
       case Off => true
       case InPump(_) => true
       case InSend(_) => th.ret == InPump(PumpNext)
       case _ => false)
    case Stopper(_) =>
      (match th.loc
       case Off => true
       case InStop => true
       case InCancel(_) => th.ret == Off
       case _ => false)
  }

  // ---- The scopes of the program text -----------------------------------------------------

  function RunScope(r: RunLoc): seq<Mutex> {
    if r in {SET_CTX, UNLOCK_CTX, CLEAR_CTX, UNLOCK_CLEAR_CTX} then [CtxMutex]
    else if r in {SET_STREAM, UNLOCK_STREAM, CLEAR_STREAM, UNLOCK_CLEAR_STREAM} then [WriteMutex]
    else if r in {EDIT_LIST, UNLOCK_LIST, MOVE_LIST, UNLOCK_MOVE} then [SessionIdsMutex]
    else []
  }

  /** The mutexes whose lock_guards are in scope at a location, outermost first. */
  function Scope(loc: Loc): seq<Mutex> {
    match loc
    case InRun(r) => RunScope(r)
    case InPump(p) => if p == CopyIds || p == UnlockIds then [SessionIdsMutex] else []
    case InSend(x) => if x == LockWrite || x == SendReturns then [] else [WriteMutex]
    case InCancel(x) => if x == LockCancel || x == CancelReturns then [] else [CtxMutex]
    case _ => []
  }

  lemma RunTextKeepsScopes(r: RunLoc)
    ensures match RunCode(r)
            case Lock(m, next) => Scope(next) == RunScope(r) + [m]
            case Unlock(next) => RunScope(r) != [] && Scope(next) == RunScope(r)[..|RunScope(r)| - 1]
            case Call(entry, ret) => RunScope(r) == [] && Scope(entry) == [] && Scope(ret) == []
            case Spawn(_, entry, next) => RunScope(r) == [] && Scope(entry) == [] && Scope(next) == []
            case Join(_, next) => RunScope(r) == [] && Scope(next) == []
            case _ => true
  {
  }

  /** The annotation fits the text: locks open a scope, unlocks close the innermost one, and
      calls, returns, starts and joins happen outside all of them. */
  lemma TextKeepsScopes(loc: Loc)
    ensures match Code(loc)
            case Lock(m, next) => Scope(next) == Scope(loc) + [m]
            case Unlock(next) => Scope(loc) != [] && Scope(next) == Scope(loc)[..|Scope(loc)| - 1]
            case Call(entry, ret) => Scope(loc) == [] && Scope(entry) == [] && Scope(ret) == []
            case Return => Scope(loc) == []
            case Spawn(_, entry, next) => Scope(loc) == [] && Scope(entry) == [] && Scope(next) == []
            case Join(_, next) => Scope(loc) == [] && Scope(next) == []
            case Act => true
  {
    if loc.InRun? {
      RunTextKeepsScopes(loc.run);
      hide RunCode, RunScope;
    }
  }

  /** Mutexes are held as the text says, and owned by the thread that holds them. */
  ghost predicate LockInv(s: State) {
    && (forall t :: Fits(t, At(s, t)) && At(s, t).held == Scope(At(s, t).loc))
    && (forall t, m :: m in At(s, t).held <==> m in s.owner && s.owner[m] == t)
  }

  // ---- The stretches of RunOnce -----------------------------------------------------------

  /** Where the main thread is in RunOnce; during a call, where the call returns to. */
  function Stage(s: State): nat {
    var home := Home(At(s, Main));
    if home.InRun? then home.run else OUTSIDE
  }

  predicate CtxStashed(r: nat) {
    SET_CTX < r <= CLEAR_CTX
  }

  predicate StreamStashed(r: nat) {
    SET_STREAM < r <= CLEAR_STREAM
  }

  predicate ObjectsExist(r: nat) {
    MAKE_CONTEXT < r <= DESTROY_CONTEXT
  }

  predicate MayHaveKeepalive(r: nat) {
    SPAWN_KEEPALIVE < r <= JOIN_KEEPALIVE
  }

  predicate MayHavePump(r: nat) {
    SPAWN_PUMP < r <= JOIN_PUMP
  }

  predicate CycleInv(s: State) {
    var r, mem := Stage(s), s.mem;
    && mem.ctx == (if CtxStashed(r) then Some(mem.cycle) else None)
    && mem.stream == (if StreamStashed(r) then Some(mem.cycle) else None)
    && mem.alive == (if ObjectsExist(r) then Some(mem.cycle) else None)
    && mem.cycle == mem.generation + (if r == OUTSIDE then 0 else 1)
  }

  /** Keepalive and pump run only between their start and their join. */
  predicate ThreadsInv(s: State) {
    && (At(s, Keepalive).loc != Off ==> MayHaveKeepalive(Stage(s)))
    && (At(s, Pump).loc != Off ==> MayHavePump(Stage(s)))
  }

  /** A Write in progress is on the stream of the cycle that is active. */
  ghost predicate WriteInv(s: State) {
    forall t :: At(s, t).loc == InSend(Writing) ==> At(s, t).target == Some(s.mem.cycle)
  }

  // ---- Watchdogs --------------------------------------------------------------------------

  /** Past the test of ctx_ in CancelStream. */
  predicate InArm(th: Thread) {
    th.loc.InCancel? &&
    th.loc.cancel in {TryCancel, ExchangeArmed, ReadEnvironment, LoadGeneration, StartWatchdog}
  }

  /** Past the exchange, having found the flag clear. */
  predicate Winner(th: Thread) {
    th.loc.InCancel? && th.loc.cancel in {ReadEnvironment, LoadGeneration, StartWatchdog}
  }

  predicate NoDogNow(mem: Memory, log: Log) {
    forall i :: 0 <= i < |log.watchdogs| ==> log.watchdogs[i].cycle != mem.cycle
  }

  /** What the steps of CancelStream promise about the thread that takes them. */
  predicate ArmPart(th: Thread, mem: Memory, log: Log) {
    && (InArm(th) ==> mem.ctx.Some?)
    && (Winner(th) ==> mem.armed && NoDogNow(mem, log))
    && (th.loc == InCancel(StartWatchdog) ==> th.generation == mem.generation)
  }

  /** `r` is the stage of the main thread. */
  predicate DogsInv(mem: Memory, log: Log, r: nat) {
    var dogs := log.watchdogs;
    && (forall i :: 0 <= i < |dogs| ==>
          && dogs[i].cycle == dogs[i].generation + 1 <= mem.cycle
          && (dogs[i].cycle == mem.cycle ==> mem.armed && r != CLEAR_FAILED && r != CLEAR_ARMED))
    && (forall i, j :: 0 <= i < j < |dogs| ==> dogs[i].cycle != dogs[j].cycle)
  }

  /** A thread in the middle of CancelStream has the current context in its hands, and the one
      that won the exchange starts the only watchdog of the cycle. */
  ghost predicate ArmInv(s: State) {
    && (forall t :: ArmPart(At(s, t), s.mem, s.log))
    && DogsInv(s.mem, s.log, Stage(s))
  }

  predicate CancelsLive(log: Log) {
    forall i :: 0 <= i < |log.cancels| ==> log.cancels[i].live
  }

  ghost predicate Inv(s: State) {
    LockInv(s) && CycleInv(s) && ThreadsInv(s) && WriteInv(s) && ArmInv(s) && CancelsLive(s.log)
  }

  // ---- What one step changes --------------------------------------------------------------

  /** How a step moves the thread that takes it, and what it does to the mutex owners. */
  predicate Moved(s: State, s': State, t: ThreadId) {
    var th, th' := At(s, t), At(s', t);
    && Fits(t, th')
    && match Code(th.loc)
       case Lock(m, next) =>
         m !in s.owner && th' == th.(loc := next, held := th.held + [m]) && s'.owner == s.owner[m := t]
       case Unlock(next) =>
         && th.held != []
         && th' == th.(loc := next, held := th.held[..|th.held| - 1])
         && s'.owner == s.owner - {th.held[|th.held| - 1]}
       case Call(entry, ret) => th' == th.(loc := entry, ret := ret) && s'.owner == s.owner
       case Return => th' == th.(loc := th.ret) && s'.owner == s.owner
       case Spawn(_, _, next) => th' == th.(loc := next) && s'.owner == s.owner
       case Join(u, next) => At(s, u).loc == Off && th' == th.(loc := next) && s'.owner == s.owner
       case Act =>
         && th'.held == th.held && Scope(th'.loc) == Scope(th.loc) && s'.owner == s.owner
         && (th.loc.InSend? || th.loc.InCancel? ==> Home(th') == Home(th))
  }

  /** Only the two spawning statements move another thread. */
  function Elsewhere(s: State, t: ThreadId, u: ThreadId): Thread {
    var code := Code(At(s, t).loc);
    if code.Spawn? && u == code.t then Fresh(code.entry) else At(s, u)
  }

  ghost predicate OthersStay(s: State, s': State, t: ThreadId) {
    forall u :: u != t ==> At(s', u) == Elsewhere(s, t, u)
  }

  lemma RunActScope(th: Thread, r: RunLoc, mem: Memory, c: Choice)
    requires RunCode(r) == Act && RunAct(th, r, mem, c).Goes?
    ensures var loc := RunAct(th, r, mem, c).loc;
            loc.InRun? && loc.run <= BUMP_GENERATION && Scope(loc) == RunScope(r)
  {
  }

  lemma KeepaliveActScope(th: Thread, k: KeepaliveLoc, mem: Memory, c: Choice)
    requires KeepaliveAct(th, k, mem, c).Goes?
    ensures var loc := KeepaliveAct(th, k, mem, c).loc; loc == Off || loc.InKeepalive?
  {
  }

  lemma PumpActScope(p: PumpLoc, mem: Memory, c: Choice)
    requires PumpAct(p, mem, c).Goes? && Code(InPump(p)) == Act
    ensures var loc := PumpAct(p, mem, c).loc; (loc == Off || loc.InPump?) && Scope(loc) == Scope(InPump(p))
  {
  }

  lemma SendActScope(th: Thread, x: SendLoc, mem: Memory, c: Choice)
    requires th.loc == InSend(x) && Code(th.loc) == Act
    ensures var th' := SendAct(th, x, mem, c);
            && th'.loc.InSend? && th'.ret == th.ret && th'.held == th.held
            && Scope(th'.loc) == Scope(th.loc)
  {
  }

  lemma CancelActScope(th: Thread, x: CancelLoc, mem: Memory, log: Log, running: bool, c: Choice)
    requires th.loc == InCancel(x) && Code(th.loc) == Act
    ensures var th' := CancelAct(th, x, mem, log, running, c).0;
            && th'.loc.InCancel? && th'.ret == th.ret && th'.held == th.held
            && Scope(th'.loc) == Scope(th.loc)
  {
  }

  lemma MoveShape(s: State, t: ThreadId, move: Move)
    requires Fits(t, At(s, t)) && Code(At(s, t).loc) == Act && !At(s, t).loc.InSend? && !At(s, t).loc.InCancel?
    requires MoveStep(s, t, move).Some? && !MoveStep(s, t, move).value.exited
    requires move.Goes? ==> Fits(t, At(s, t).(loc := move.loc)) && Scope(move.loc) == Scope(At(s, t).loc)
    ensures Moved(s, MoveStep(s, t, move).value, t) && OthersStay(s, MoveStep(s, t, move).value, t)
  {
    hide Fits, Scope, Code;
  }

  lemma ActShape(s: State, t: ThreadId, c: Choice)
    requires Fits(t, At(s, t)) && Code(At(s, t).loc) == Act
    requires ActStep(s, t, c).Some? && !ActStep(s, t, c).value.exited
    ensures Moved(s, ActStep(s, t, c).value, t) && OthersStay(s, ActStep(s, t, c).value, t)
  {
    hide RunAct, KeepaliveAct, PumpAct, SendAct, CancelAct, RunCode, RunScope, MoveStep, Running;
    var th := At(s, t);
    match th.loc {
      case InRun(r) =>
        var move := RunAct(th, r, s.mem, c);
        if move.Goes? {
          RunActScope(th, r, s.mem, c);
        }
        MoveShape(s, t, move);
      case InKeepalive(k) =>
        var move := KeepaliveAct(th, k, s.mem, c);
        if move.Goes? {
          KeepaliveActScope(th, k, s.mem, c);
        }
        MoveShape(s, t, move);
      case InPump(p) =>
        var move := PumpAct(p, s.mem, c);
        if move.Goes? {
          PumpActScope(p, s.mem, c);
        }
        MoveShape(s, t, move);
      case InSend(x) => SendActScope(th, x, s.mem, c);
      case InCancel(x) => CancelActScope(th, x, s.mem, s.log, Running(s), c);
      case Off => MoveShape(s, t, Goes(InStop, s.mem.(stop := true)));
      case InStop =>
    }
  }

  lemma CallFits(t: ThreadId, th: Thread)
    requires Fits(t, th)
    ensures match Code(th.loc)
            case Lock(m, next) => forall h :: Fits(t, th.(loc := next, held := h))
            case Unlock(next) => forall h :: Fits(t, th.(loc := next, held := h))
            case Call(entry, ret) => Fits(t, th.(loc := entry, ret := ret))
            case Return => Fits(t, th.(loc := th.ret)) && Scope(th.ret) == []
            case Spawn(u, entry, next) => Fits(t, th.(loc := next)) && Fits(u, Fresh(entry)) && u != t
            case Join(_, next) => Fits(t, th.(loc := next))
            case Act => true
  {
  }

  lemma StepShape(s: State, t: ThreadId, c: Choice)
    requires Fits(t, At(s, t)) && ThreadStep(s, t, c).Some? && !ThreadStep(s, t, c).value.exited
    ensures Moved(s, ThreadStep(s, t, c).value, t) && OthersStay(s, ThreadStep(s, t, c).value, t)
  {
    CallFits(t, At(s, t));
    TextKeepsScopes(At(s, t).loc);
    if Code(At(s, t).loc) == Act {
      ActShape(s, t, c);
      hide ActStep, Code, Scope, Fits, Moved, Elsewhere;
    } else {
      hide ActStep, Code, Scope, Fits;
    }
  }

  // ---- Mutexes ----------------------------------------------------------------------------

  lemma ScopeIsShort(loc: Loc)
    ensures |Scope(loc)| <= 1
  {
  }

  /** The threads that a step starts were off, so they held nothing. */
  lemma SpawnedWereOff(s: State, t: ThreadId, u: ThreadId)
    requires Fits(t, At(s, t)) && ThreadsInv(s)
    requires u != t && Elsewhere(s, t, u) != At(s, u)
    ensures At(s, u).loc == Off && t == Main
    ensures var th := Elsewhere(s, t, u); Fits(u, th) && th.held == Scope(th.loc) == Scope(Off) == []
  {
  }

  predicate Matches(s: State, t: ThreadId, m: Mutex) {
    m in At(s, t).held <==> m in s.owner && s.owner[m] == t
  }

  lemma OwnScopeStep(s: State, s': State, t: ThreadId)
    requires Fits(t, At(s, t)) && At(s, t).held == Scope(At(s, t).loc) && Moved(s, s', t)
    ensures At(s', t).held == Scope(At(s', t).loc)
  {
    CallFits(t, At(s, t));
    TextKeepsScopes(At(s, t).loc);
    hide Fits, Scope, Code, At;
  }

  lemma OwnLockStep(s: State, s': State, t: ThreadId, m: Mutex)
    requires |At(s, t).held| <= 1 && Matches(s, t, m) && Moved(s, s', t)
    ensures Matches(s', t, m)
  {
    hide Fits, Scope, Code, At;
  }

  lemma OtherLockStep(s: State, s': State, t: ThreadId, u: ThreadId, m: Mutex)
    requires u != t && At(s', u) == At(s, u) && Moved(s, s', t)
    requires Matches(s, u, m) && forall x :: Matches(s, t, x)
    ensures Matches(s', u, m)
  {
    hide Fits, Scope, Code, At;
    var held := At(s, t).held;
    if held != [] {
      assert Matches(s, t, held[|held| - 1]) && held[|held| - 1] in held;
    }
  }

  lemma MovedFits(s: State, s': State, t: ThreadId)
    requires Moved(s, s', t)
    ensures Fits(t, At(s', t))
  {
    hide Fits, Scope, Code, At;
  }

  lemma LockStepFor(s: State, s': State, t: ThreadId, u: ThreadId, m: Mutex)
    requires LockInv(s) && ThreadsInv(s) && Moved(s, s', t) && OthersStay(s, s', t)
    ensures Fits(u, At(s', u)) && At(s', u).held == Scope(At(s', u).loc) && Matches(s', u, m)
  {
    hide Moved, ThreadsInv, Fits, Scope, At, Elsewhere, Code;
    assert Fits(t, At(s, t)) && Fits(u, At(s, u)) && At(s, u).held == Scope(At(s, u).loc);
    assert Matches(s, u, m) && forall x :: Matches(s, t, x);
    if u == t {
      OwnScopeStep(s, s', t);
      ScopeIsShort(At(s, t).loc);
      OwnLockStep(s, s', t, m);
      assert Fits(t, At(s', t)) by { MovedFits(s, s', t); }
    } else {
      if Elsewhere(s, t, u) != At(s, u) {
        SpawnedWereOff(s, t, u);
        SpawnOwns(s, s', t, u);
      } else {
        OtherLockStep(s, s', t, u, m);
      }
    }
  }

  lemma SpawnOwns(s: State, s': State, t: ThreadId, u: ThreadId)
    requires Moved(s, s', t) && u != t && Elsewhere(s, t, u) != At(s, u)
    ensures s'.owner == s.owner
  {
    hide Fits, Scope, Code, At;
  }

  lemma LockStep(s: State, s': State, t: ThreadId)
    requires LockInv(s) && ThreadsInv(s) && Moved(s, s', t) && OthersStay(s, s', t)
    ensures LockInv(s')
  {
    hide Moved, ThreadsInv, Fits, Scope, At, OthersStay;
    forall u
      ensures Fits(u, At(s', u)) && At(s', u).held == Scope(At(s', u).loc)
    {
      LockStepFor(s, s', t, u, CtxMutex);
    }
    forall u, m
      ensures m in At(s', u).held <==> m in s'.owner && s'.owner[m] == u
    {
      LockStepFor(s, s', t, u, m);
    }
  }

  // ---- The connection cycle ---------------------------------------------------------------

  /** The members only the main thread writes. */
  predicate SameCycle(m: Memory, m': Memory) {
    && m'.ctx == m.ctx && m'.stream == m.stream && m'.alive == m.alive
    && m'.cycle == m.cycle && m'.generation == m.generation
  }

  predicate SameStretch(r: nat, r': nat) {
    && CtxStashed(r) == CtxStashed(r') && StreamStashed(r) == StreamStashed(r')
    && ObjectsExist(r) == ObjectsExist(r') && (r == OUTSIDE) == (r' == OUTSIDE)
    && (r' == CLEAR_FAILED || r' == CLEAR_ARMED ==> r == CLEAR_FAILED || r == CLEAR_ARMED)
  }

  predicate SameHelpers(r: nat, r': nat) {
    MayHaveKeepalive(r) == MayHaveKeepalive(r') && MayHavePump(r) == MayHavePump(r')
  }

  /** A statement of RunOnce on members or locals, as opposed to a lock, an unlock, a call, the
      start or the end of a thread, or another thread's statement. */
  predicate OwnStatement(s: State, t: ThreadId) {
    t == Main && At(s, t).loc.InRun? && RunCode(At(s, t).loc.run) == Act
  }

  /** Locks, unlocks, calls, starts and joins lead on to the next statement, except that the
      read loop goes round after answering. */
  lemma RunTextOrder(r: RunLoc)
    ensures match RunCode(r)
            case Lock(m, next) =>
              && next == InRun(r + 1)
              && (r == LOCK_CTX || r == LOCK_STREAM || r == LOCK_LIST || r == LOCK_MOVE || r == LOCK_CLEAR_CTX
                  || r == LOCK_CLEAR_STREAM)
            case Unlock(next) =>
              && next == InRun(r + 1)
              && (r == UNLOCK_CTX || r == UNLOCK_STREAM || r == UNLOCK_LIST || r == UNLOCK_MOVE
                  || r == UNLOCK_CLEAR_CTX || r == UNLOCK_CLEAR_STREAM)
            case Call(entry, ret) =>
              && (entry == InSend(LockWrite) || entry == InCancel(LockCancel))
              && ret == InRun(if r == SEND_RESPONSE then LOOP_STOP else r + 1)
              && (r == SEND_REGISTER || r == SEND_RESPONSE || r == CLEANUP_CANCEL)
            case Spawn(t, entry, next) =>
              next == InRun(r + 1) && r == if t == Keepalive then SPAWN_KEEPALIVE else SPAWN_PUMP
            case Join(t, next) =>
              next == InRun(r + 1) && r == if t == Keepalive then JOIN_KEEPALIVE else JOIN_PUMP
            case _ => true
    ensures RunCode(r).Spawn? || RunCode(r).Join? ==> RunCode(r).t == Keepalive || RunCode(r).t == Pump
  {
  }

  /** What the statements of the other pieces of text leave alone. */
  lemma KeepaliveKeeps(th: Thread, k: KeepaliveLoc, mem: Memory, c: Choice)
    requires KeepaliveAct(th, k, mem, c).Goes?
    ensures var mem' := KeepaliveAct(th, k, mem, c).mem;
            SameCycle(mem, mem') && mem'.armed == mem.armed && mem'.stop == mem.stop
  {
  }

  lemma PumpKeeps(p: PumpLoc, mem: Memory, c: Choice)
    requires PumpAct(p, mem, c).Goes?
    ensures PumpAct(p, mem, c).mem == mem
  {
  }

  lemma CancelKeeps(th: Thread, x: CancelLoc, mem: Memory, log: Log, running: bool, c: Choice)
    ensures var (_, mem', log') := CancelAct(th, x, mem, log, running, c);
            && SameCycle(mem, mem') && mem'.stop == mem.stop
            && log.watchdogs <= log'.watchdogs
            && forall k :: |log.watchdogs| <= k < |log'.watchdogs| ==> log'.watchdogs[k].stage == Sleeping
  {
  }

  /** The effect of a statement that is not one of RunOnce, piece by piece. */
  lemma OtherActs(s: State, t: ThreadId, c: Choice)
    requires !At(s, t).loc.InRun? && ActStep(s, t, c).Some?
    ensures var s', loc := ActStep(s, t, c).value, At(s, t).loc;
            && SameCycle(s.mem, s'.mem) && s'.exited == s.exited && s'.aborted == s.aborted
            && (s'.mem.stop <==> s.mem.stop || loc == Off) && (loc == Off ==> t.Stopper?)
            && (!loc.InCancel? ==> s'.mem.armed == s.mem.armed && s'.log == s.log)
            && (loc.InSend? ==> s'.mem == s.mem)
            && s.log.watchdogs <= s'.log.watchdogs
            && forall k :: |s.log.watchdogs| <= k < |s'.log.watchdogs| ==> s'.log.watchdogs[k].stage == Sleeping
  {
    hide KeepaliveAct, PumpAct, SendAct, CancelAct, Running, SameCycle;
    var th := At(s, t);
    match th.loc {
      case InKeepalive(k) =>
        KeepaliveExits(th, k, s.mem, c);
        if KeepaliveAct(th, k, s.mem, c).Goes? {
          KeepaliveKeeps(th, k, s.mem, c);
        }
      case InPump(p) =>
        PumpExits(p, s.mem, c);
        if PumpAct(p, s.mem, c).Goes? {
          PumpKeeps(p, s.mem, c);
        }
        SameCycleSelf(s.mem);
      case InCancel(x) => CancelKeeps(th, x, s.mem, s.log, Running(s), c);
      case _ => SameCycleSelf(s.mem); StopKeepsCycle(s.mem);
    }
  }

  lemma KeepaliveExits(th: Thread, k: KeepaliveLoc, mem: Memory, c: Choice)
    ensures !KeepaliveAct(th, k, mem, c).Exits?
  {
  }

  lemma PumpExits(p: PumpLoc, mem: Memory, c: Choice)
    ensures !PumpAct(p, mem, c).Exits?
  {
  }

  lemma SameCycleSelf(m: Memory)
    ensures SameCycle(m, m)
  {
  }

  lemma StopKeepsCycle(m: Memory)
    ensures SameCycle(m, m.(stop := true))
  {
  }

  lemma NotInRun(s: State, t: ThreadId)
    requires Fits(t, At(s, t)) && Code(At(s, t).loc) == Act && !OwnStatement(s, t)
    ensures !At(s, t).loc.InRun?
  {
  }

  lemma OtherActsKeepCycle(s: State, t: ThreadId, c: Choice)
    requires Fits(t, At(s, t)) && Code(At(s, t).loc) == Act && !OwnStatement(s, t)
    requires ActStep(s, t, c).Some?
    ensures SameCycle(s.mem, ActStep(s, t, c).value.mem)
    ensures !ActStep(s, t, c).value.exited || s.exited
  {
    hide Fits, Code, OwnStatement, ActStep;
    NotInRun(s, t);
    OtherActs(s, t, c);
  }

  lemma OtherStepsKeepCycle(s: State, t: ThreadId, c: Choice)
    requires Fits(t, At(s, t)) && !OwnStatement(s, t) && ThreadStep(s, t, c).Some?
    ensures SameCycle(s.mem, ThreadStep(s, t, c).value.mem)
    ensures !ThreadStep(s, t, c).value.exited || s.exited
  {
    if Code(At(s, t).loc) == Act {
      OtherActsKeepCycle(s, t, c);
    }
    hide ActStep, Code, Fits;
  }

  lemma MainElsewhere(s: State, s': State, t: ThreadId)
    requires Fits(t, At(s, t)) && Moved(s, s', t) && OthersStay(s, s', t) && t != Main
    ensures At(s', Main) == At(s, Main)
  {
    assert !Code(At(s, t).loc).Spawn?;
    hide Moved, Fits;
  }

  /** In a call the main thread stays where it made it. */
  lemma CallKeepsStage(s: State, s': State)
    requires Fits(Main, At(s, Main)) && !At(s, Main).loc.InRun? && Moved(s, s', Main)
    ensures Stage(s') == Stage(s)
  {
    assert Home(At(s', Main)) == Home(At(s, Main)) by { hide Scope; }
    hide Moved, Home;
  }

  /** What a step of the main thread in RunOnce itself makes of its rank. */
  lemma TextStage(s: State, s': State)
    requires At(s, Main).loc.InRun? && RunCode(At(s, Main).loc.run) != Act && Moved(s, s', Main)
    ensures var r, r' := Stage(s), Stage(s');
            SameStretch(r, r') &&
            match RunCode(At(s, Main).loc.run)
            case Spawn(t, _, _) =>
              r' == r + 1 && r == (if t == Keepalive then SPAWN_KEEPALIVE else SPAWN_PUMP)
            case Join(t, _) =>
              && At(s, t).loc == Off
              && r' == r + 1 && r == if t == Keepalive then JOIN_KEEPALIVE else JOIN_PUMP
            case _ => SameHelpers(r, r')
  {
    RunTextOrder(At(s, Main).loc.run);
    hide RunCode, Scope, Fits;
  }

  lemma OtherStepsKeepStage(s: State, s': State, t: ThreadId)
    requires Fits(t, At(s, t)) && !OwnStatement(s, t) && Moved(s, s', t) && OthersStay(s, s', t)
    ensures SameStretch(Stage(s), Stage(s'))
  {
    if t == Main {
      if At(s, t).loc.InRun? {
        TextStage(s, s');
      } else {
        CallKeepsStage(s, s');
      }
    } else {
      MainElsewhere(s, s', t);
    }
    hide Moved, Fits, RunCode;
  }

  lemma OwnCtx(th: Thread, r: RunLoc, mem: Memory, c: Choice)
    requires RunAct(th, r, mem, c).Goes? && RunAct(th, r, mem, c).loc.InRun?
    requires mem.ctx == if CtxStashed(r) then Some(mem.cycle) else None
    ensures var mem', r' := RunAct(th, r, mem, c).mem, RunAct(th, r, mem, c).loc.run;
            mem'.ctx == if CtxStashed(r') then Some(mem'.cycle) else None
  {
  }

  lemma OwnStream(th: Thread, r: RunLoc, mem: Memory, c: Choice)
    requires RunAct(th, r, mem, c).Goes? && RunAct(th, r, mem, c).loc.InRun?
    requires mem.stream == if StreamStashed(r) then Some(mem.cycle) else None
    ensures var mem', r' := RunAct(th, r, mem, c).mem, RunAct(th, r, mem, c).loc.run;
            mem'.stream == if StreamStashed(r') then Some(mem'.cycle) else None
  {
  }

  lemma OwnObjects(th: Thread, r: RunLoc, mem: Memory, c: Choice)
    requires RunAct(th, r, mem, c).Goes? && RunAct(th, r, mem, c).loc.InRun?
    requires mem.alive == if ObjectsExist(r) then Some(mem.cycle) else None
    ensures var mem', r' := RunAct(th, r, mem, c).mem, RunAct(th, r, mem, c).loc.run;
            mem'.alive == if ObjectsExist(r') then Some(mem'.cycle) else None
  {
  }

  /** The counters change at the two ends of RunOnce. */
  lemma OwnCounts(th: Thread, r: RunLoc, mem: Memory, c: Choice)
    requires RunAct(th, r, mem, c).Goes? && RunAct(th, r, mem, c).loc.InRun?
    ensures var mem' := RunAct(th, r, mem, c).mem;
            && mem'.cycle == mem.cycle + (if r == OUTSIDE then 1 else 0)
            && mem'.generation == mem.generation + (if r == BUMP_GENERATION then 1 else 0)
            && mem'.stop == mem.stop
    ensures RunAct(th, r, mem, c).loc.run == OUTSIDE <==> r == BUMP_GENERATION
  {
  }

  lemma OwnStep(s: State, c: Choice)
    requires OwnStatement(s, Main) && ThreadStep(s, Main, c).Some? && !ThreadStep(s, Main, c).value.exited
    ensures var th := At(s, Main);
            var move := RunAct(th, th.loc.run, s.mem, c);
            && move.Goes? && move.loc.InRun? && Stage(s) == th.loc.run
            && var s' := ThreadStep(s, Main, c).value;
            && At(s', Main) == th.(loc := move.loc) && Stage(s') == move.loc.run
            && s'.mem == move.mem && s'.log == s.log
  {
    var th := At(s, Main);
    if RunAct(th, th.loc.run, s.mem, c).Goes? {
      RunActScope(th, th.loc.run, s.mem, c);
    }
    hide RunAct, RunCode;
  }

  lemma CycleStep(s: State, t: ThreadId, c: Choice)
    requires Fits(t, At(s, t)) && CycleInv(s)
    requires ThreadStep(s, t, c).Some? && !ThreadStep(s, t, c).value.exited
    ensures CycleInv(ThreadStep(s, t, c).value)
  {
    if OwnStatement(s, t) {
      var th := At(s, Main);
      OwnStep(s, c);
      OwnCtx(th, th.loc.run, s.mem, c);
      OwnStream(th, th.loc.run, s.mem, c);
      OwnObjects(th, th.loc.run, s.mem, c);
      OwnCounts(th, th.loc.run, s.mem, c);
    } else {
      StepShape(s, t, c);
      OtherStepsKeepCycle(s, t, c);
      OtherStepsKeepStage(s, ThreadStep(s, t, c).value, t);
    }
    hide ThreadStep, Stage, RunAct, RunCode, Moved, Fits;
  }

  /** Statements of RunOnce keep the stretches of the helpers. */
  lemma OwnHelpers(th: Thread, r: RunLoc, mem: Memory, c: Choice)
    requires RunAct(th, r, mem, c).Goes? && RunAct(th, r, mem, c).loc.InRun?
    ensures SameHelpers(r, RunAct(th, r, mem, c).loc.run)
  {
  }

  lemma HelpersStayOff(s: State, t: ThreadId, c: Choice)
    requires !t.Stopper? && At(s, t).loc == Off
    ensures ThreadStep(s, t, c).None?
  {
  }

  lemma ThreadsStep(s: State, t: ThreadId, c: Choice)
    requires Fits(t, At(s, t)) && ThreadsInv(s)
    requires ThreadStep(s, t, c).Some? && !ThreadStep(s, t, c).value.exited
    ensures ThreadsInv(ThreadStep(s, t, c).value)
  {
    var s' := ThreadStep(s, t, c).value;
    StepShape(s, t, c);
    if t != Main {
      if (t == Keepalive || t == Pump) && At(s, t).loc == Off {
        HelpersStayOff(s, t, c);
      }
      assert !Code(At(s, t).loc).Spawn?;
      MainElsewhere(s, s', t);
      hide ThreadStep, Stage, Code, Moved, Fits;
    } else {
      if OwnStatement(s, t) {
        OwnStep(s, c);
        OwnHelpers(At(s, Main), At(s, Main).loc.run, s.mem, c);
      } else if At(s, t).loc.InRun? {
        TextStage(s, s');
      } else {
        CallKeepsStage(s, s');
        assert !Code(At(s, t).loc).Spawn?;
      }
      hide ThreadStep, Stage, RunAct, RunCode, Moved, Fits;
    }
  }

  // ---- Writes -----------------------------------------------------------------------------

  /** Whoever is in Send, or has just been, finds the stream and the context of the cycle. */
  lemma SendersSeeStream(s: State, t: ThreadId)
    requires Fits(t, At(s, t)) && CycleInv(s) && ThreadsInv(s) && At(s, t).loc.InSend?
    ensures SEND_REGISTER < Stage(s) <= JOIN_PUMP
    ensures s.mem.ctx == s.mem.stream == s.mem.alive == Some(s.mem.cycle)
  {
  }

  /** No lock, unlock, call or return leads into Write, nor past the test of ctx_ in
      CancelStream. */
  lemma TextKeepsOut(t: ThreadId, th: Thread)
    requires Fits(t, th)
    ensures match Code(th.loc)
            case Lock(m, next) => next != InSend(Writing) && !InArm(Fresh(next))
            case Unlock(next) => next != InSend(Writing) && !InArm(Fresh(next))
            case Call(entry, ret) => entry != InSend(Writing) && !InArm(Fresh(entry))
            case Return => th.ret != InSend(Writing) && !InArm(Fresh(th.ret))
            case Spawn(_, _, next) => next != InSend(Writing) && !InArm(Fresh(next))
            case Join(_, next) => next != InSend(Writing) && !InArm(Fresh(next))
            case Act => true
  {
  }

  lemma ActWriteStarts(s: State, t: ThreadId, c: Choice)
    requires ActStep(s, t, c).Some? && !ActStep(s, t, c).value.exited
    requires Fits(t, At(s, t)) && Code(At(s, t).loc) == Act
    requires At(ActStep(s, t, c).value, t).loc == InSend(Writing)
    ensures At(s, t).loc == InSend(StartWrite)
    ensures At(ActStep(s, t, c).value, t).target == s.mem.stream && ActStep(s, t, c).value.mem == s.mem
  {
    hide RunAct, RunCode, CancelAct, Running, KeepaliveAct, PumpAct, RunScope, Code, Fits;
    ActLeadsTo(s, t, c);
  }

  /** Only Send's own statements lead into Send. */
  lemma ActLeadsTo(s: State, t: ThreadId, c: Choice)
    requires ActStep(s, t, c).Some? && !ActStep(s, t, c).value.exited && Code(At(s, t).loc) == Act
    ensures At(ActStep(s, t, c).value, t).loc.InSend? ==> At(s, t).loc.InSend?
    ensures InArm(At(ActStep(s, t, c).value, t)) ==> At(s, t).loc.InCancel?
  {
    hide RunAct, RunCode, CancelAct, SendAct, Running, KeepaliveAct, PumpAct, RunScope, Scope;
    var th := At(s, t);
    match th.loc {
      case InRun(r) => if RunAct(th, r, s.mem, c).Goes? { RunActScope(th, r, s.mem, c); }
      case InKeepalive(k) => if KeepaliveAct(th, k, s.mem, c).Goes? { KeepaliveActScope(th, k, s.mem, c); }
      case InPump(p) => if PumpAct(p, s.mem, c).Goes? { PumpActScope(p, s.mem, c); }
      case InSend(x) => SendActScope(th, x, s.mem, c);
      case InCancel(x) => CancelActScope(th, x, s.mem, s.log, Running(s), c);
      case _ =>
    }
  }

  lemma WriteStarts(s: State, t: ThreadId, c: Choice)
    requires ThreadStep(s, t, c).Some? && Fits(t, At(s, t))
    requires At(ThreadStep(s, t, c).value, t).loc == InSend(Writing)
    requires !ThreadStep(s, t, c).value.exited
    ensures At(s, t).loc == InSend(StartWrite)
    ensures At(ThreadStep(s, t, c).value, t).target == s.mem.stream
    ensures ThreadStep(s, t, c).value.mem == s.mem
  {
    TextKeepsOut(t, At(s, t));
    if Code(At(s, t).loc) == Act {
      ActWriteStarts(s, t, c);
    }
    hide ActStep, Code, Fits;
  }

  lemma WriteStep(s: State, t: ThreadId, c: Choice)
    requires LockInv(s) && CycleInv(s) && ThreadsInv(s) && WriteInv(s)
    requires ThreadStep(s, t, c).Some? && !ThreadStep(s, t, c).value.exited
    ensures WriteInv(ThreadStep(s, t, c).value)
  {
    var s' := ThreadStep(s, t, c).value;
    assert Fits(t, At(s, t));
    StepShape(s, t, c);
    forall u | At(s', u).loc == InSend(Writing)
      ensures At(s', u).target == Some(s'.mem.cycle)
    {
      assert Fits(u, At(s, u));
      hide ThreadStep, LockInv, Moved;
      if u == t {
        WriteStarts(s, t, c);
        SendersSeeStream(s, t);
      } else {
        assert At(s', u) == At(s, u);
        SendersSeeStream(s, u);
        if OwnStatement(s, t) {
          OwnStep(s, c);
          OwnCounts(At(s, t), At(s, t).loc.run, s.mem, c);
        } else {
          OtherStepsKeepCycle(s, t, c);
        }
      }
    }
  }

  // ---- Watchdogs and cancels --------------------------------------------------------------

  /** Two threads never hold the same mutex. */
  lemma OneHolder(s: State, m: Mutex, t: ThreadId, u: ThreadId)
    requires LockInv(s) && m in At(s, t).held && m in At(s, u).held
    ensures t == u
  {
    hide At, Fits, Scope;
    assert m in At(s, t).held <==> m in s.owner && s.owner[m] == t;
    assert m in At(s, u).held <==> m in s.owner && s.owner[m] == u;
  }

  lemma ArmingHoldsCtx(s: State, t: ThreadId)
    requires LockInv(s) && InArm(At(s, t))
    ensures CtxMutex in At(s, t).held
  {
    assert At(s, t).held == Scope(At(s, t).loc);
  }

  predicate CancelStatement(th: Thread) {
    th.loc.InCancel? && Code(th.loc) == Act
  }

  predicate SameArm(m: Memory, m': Memory) {
    m'.ctx == m.ctx && m'.armed == m.armed && m'.cycle == m.cycle && m'.generation == m.generation
  }

  lemma OtherActsKeepArm(s: State, t: ThreadId, c: Choice)
    requires Fits(t, At(s, t)) && Code(At(s, t).loc) == Act
    requires !OwnStatement(s, t) && !CancelStatement(At(s, t))
    requires ActStep(s, t, c).Some? && !ActStep(s, t, c).value.exited
    ensures SameArm(s.mem, ActStep(s, t, c).value.mem) && ActStep(s, t, c).value.log == s.log
    ensures !InArm(At(ActStep(s, t, c).value, t))
  {
    hide ActStep, Fits, Code, OwnStatement, InArm;
    NotInRun(s, t);
    OtherActs(s, t, c);
    ActLeadsTo(s, t, c);
  }

  lemma OtherStepsKeepArm(s: State, t: ThreadId, c: Choice)
    requires Fits(t, At(s, t)) && !OwnStatement(s, t) && !CancelStatement(At(s, t))
    requires ThreadStep(s, t, c).Some? && !ThreadStep(s, t, c).value.exited
    ensures SameArm(s.mem, ThreadStep(s, t, c).value.mem) && ThreadStep(s, t, c).value.log == s.log
    ensures !InArm(At(ThreadStep(s, t, c).value, t))
  {
    TextKeepsOut(t, At(s, t));
    if Code(At(s, t).loc) == Act {
      OtherActsKeepArm(s, t, c);
    }
    hide ActStep, Code, Fits;
  }

  lemma OwnKeepsArm(th: Thread, r: RunLoc, mem: Memory, c: Choice)
    requires RunAct(th, r, mem, c).Goes? && CtxStashed(r) && r != CLEAR_CTX
    ensures SameArm(mem, RunAct(th, r, mem, c).mem)
  {
  }

  lemma OwnDogs(th: Thread, r: RunLoc, mem: Memory, log: Log, c: Choice)
    requires RunAct(th, r, mem, c).Goes? && RunAct(th, r, mem, c).loc.InRun?
    requires DogsInv(mem, log, r)
    ensures DogsInv(RunAct(th, r, mem, c).mem, log, RunAct(th, r, mem, c).loc.run)
  {
  }

  /** A thread that has the context in its hands keeps the main thread in the middle of the
      cycle, and away from the statement that clears ctx_. */
  lemma ArmersSeeMidCycle(s: State, u: ThreadId)
    requires LockInv(s) && CycleInv(s) && InArm(At(s, u)) && s.mem.ctx.Some?
    ensures CtxStashed(Stage(s))
    ensures u != Main ==> At(s, Main).loc != InRun(CLEAR_CTX)
  {
    if u != Main && At(s, Main).loc == InRun(CLEAR_CTX) {
      ArmingHoldsCtx(s, u);
      assert At(s, Main).held == Scope(At(s, Main).loc);
      OneHolder(s, CtxMutex, u, Main);
    }
  }

  lemma OwnStatementArm(s: State, c: Choice)
    requires LockInv(s) && CycleInv(s) && ArmInv(s) && OwnStatement(s, Main)
    requires ThreadStep(s, Main, c).Some? && !ThreadStep(s, Main, c).value.exited
    requires OthersStay(s, ThreadStep(s, Main, c).value, Main)
    ensures ArmInv(ThreadStep(s, Main, c).value)
  {
    var s' := ThreadStep(s, Main, c).value;
    OwnStep(s, c);
    OwnDogs(At(s, Main), At(s, Main).loc.run, s.mem, s.log, c);
    forall u
      ensures ArmPart(At(s', u), s'.mem, s'.log)
    {
      if InArm(At(s', u)) {
        assert u != Main && At(s', u) == At(s, u) by { hide ThreadStep, Stage, LockInv, CycleInv, ArmInv; }
        assert ArmPart(At(s, u), s.mem, s.log);
        hide ThreadStep, DogsInv, ArmInv;
        ArmersSeeMidCycle(s, u);
        OwnKeepsArm(At(s, Main), At(s, Main).loc.run, s.mem, c);
      }
    }
    hide ThreadStep, DogsInv, ArmPart, At, Stage;
  }

  lemma QuietDogs(m: Memory, m': Memory, log: Log, r: nat, r': nat)
    requires DogsInv(m, log, r) && SameArm(m, m') && SameStretch(r, r')
    ensures DogsInv(m', log, r')
  {
  }

  lemma QuietStepArm(s: State, t: ThreadId, c: Choice)
    requires LockInv(s) && ArmInv(s) && !OwnStatement(s, t) && !CancelStatement(At(s, t))
    requires ThreadStep(s, t, c).Some? && !ThreadStep(s, t, c).value.exited
    ensures ArmInv(ThreadStep(s, t, c).value)
  {
    hide ThreadStep, Stage, LockInv, Moved, CancelStatement, OwnStatement, Fits, DogsInv, SameStretch;
    var s' := ThreadStep(s, t, c).value;
    FitsAll(s, t);
    StepShape(s, t, c);
    OtherStepsKeepArm(s, t, c);
    OtherStepsKeepStage(s, s', t);
    QuietDogs(s.mem, s'.mem, s.log, Stage(s), Stage(s'));
    forall u
      ensures ArmPart(At(s', u), s'.mem, s'.log)
    {
      if InArm(At(s', u)) {
        assert u != t && At(s', u) == At(s, u);
        assert ArmPart(At(s, u), s.mem, s.log);
      }
    }
  }

  lemma CancelActArm(th: Thread, x: CancelLoc, mem: Memory, log: Log, r: nat, c: Choice)
    requires th.loc == InCancel(x) && Code(th.loc) == Act && ArmPart(th, mem, log) && DogsInv(mem, log, r)
    requires mem.ctx.Some? ==>
               CtxStashed(r) && mem.ctx == mem.alive == Some(mem.cycle) && mem.cycle == mem.generation + 1
    ensures var (th', mem', log') := CancelAct(th, x, mem, log, r != OUTSIDE, c);
            && ArmPart(th', mem', log') && DogsInv(mem', log', r)
            && (CancelsLive(log) ==> CancelsLive(log'))
  {
  }

  lemma RunningIsStage(s: State)
    requires Fits(Main, At(s, Main))
    ensures Running(s) <==> Stage(s) != OUTSIDE
  {
  }

  lemma CancelStatementArm(s: State, t: ThreadId, c: Choice)
    requires LockInv(s) && CycleInv(s) && ArmInv(s) && CancelStatement(At(s, t))
    requires ThreadStep(s, t, c).Some? && !ThreadStep(s, t, c).value.exited
    ensures ArmInv(ThreadStep(s, t, c).value)
  {
    var s' := ThreadStep(s, t, c).value;
    var th := At(s, t);
    assert Fits(t, th) && ArmPart(th, s.mem, s.log);
    assert Fits(Main, At(s, Main));
    RunningIsStage(s);
    CancelActArm(th, th.loc.cancel, s.mem, s.log, Stage(s), c);
    StepShape(s, t, c);
    if t == Main {
      CallKeepsStage(s, s');
    } else {
      MainElsewhere(s, s', t);
    }
    assert Stage(s') == Stage(s);
    assert CtxMutex in th.held by {
      assert th.held == Scope(th.loc);
    }
    assert (At(s', t), s'.mem, s'.log) == CancelAct(th, th.loc.cancel, s.mem, s.log, Running(s), c);
    hide ThreadStep, CancelAct, Stage, Moved, Code, Fits, CycleInv;
    forall u
      ensures ArmPart(At(s', u), s'.mem, s'.log)
    {
      if u != t && InArm(At(s', u)) {
        assert At(s', u) == At(s, u);
        ArmingHoldsCtx(s, u);
        OneHolder(s, CtxMutex, t, u);
      }
    }
  }

  lemma ArmStep(s: State, t: ThreadId, c: Choice)
    requires Inv(s) && ThreadStep(s, t, c).Some? && !ThreadStep(s, t, c).value.exited
    ensures ArmInv(ThreadStep(s, t, c).value)
  {
    hide ThreadStep, CycleInv, ThreadsInv, WriteInv, ArmInv;
    if OwnStatement(s, t) {
      assert Fits(t, At(s, t));
      StepShape(s, t, c);
      OwnStatementArm(s, c);
    } else if CancelStatement(At(s, t)) {
      CancelStatementArm(s, t, c);
    } else {
      QuietStepArm(s, t, c);
    }
  }

  lemma CancelsStep(s: State, t: ThreadId, c: Choice)
    requires Inv(s) && ThreadStep(s, t, c).Some? && !ThreadStep(s, t, c).value.exited
    ensures CancelsLive(ThreadStep(s, t, c).value.log)
  {
    assert Fits(t, At(s, t)) && Fits(Main, At(s, Main)) && ArmPart(At(s, t), s.mem, s.log);
    hide LockInv, ThreadsInv, WriteInv, RunAct, RunCode;
    if OwnStatement(s, t) {
      OwnStep(s, c);
    } else if CancelStatement(At(s, t)) {
      RunningIsStage(s);
      CancelActArm(At(s, t), At(s, t).loc.cancel, s.mem, s.log, Stage(s), c);
      hide CancelAct, Running, Stage;
    } else {
      OtherStepsKeepArm(s, t, c);
    }
  }

  // ---- All schedules ----------------------------------------------------------------------

  /** What the parts of the invariant depend on. */
  lemma Frame(s: State, s': State)
    requires Inv(s) && s'.threads == s.threads && s'.owner == s.owner && s'.mem == s.mem
    ensures LockInv(s') && CycleInv(s') && ThreadsInv(s') && WriteInv(s') && Stage(s') == Stage(s)
    ensures forall t :: At(s', t) == At(s, t)
  {
    assert forall t :: At(s', t) == At(s, t);
    hide At, Fits, Scope;
  }

  lemma ExitStep(s: State, t: ThreadId, c: Choice)
    requires Inv(s) && !s.exited && ThreadStep(s, t, c).Some? && ThreadStep(s, t, c).value.exited
    ensures Inv(ThreadStep(s, t, c).value)
  {
    assert ThreadStep(s, t, c).value == s.(exited := true) by {
      hide Inv, RunAct, Code;
    }
    Frame(s, s.(exited := true));
    hide ThreadStep, LockInv, CycleInv, ThreadsInv, WriteInv, Stage, At, DogsInv, ArmPart;
  }

  lemma ThreadStepKeepsInv(s: State, t: ThreadId, c: Choice)
    requires Inv(s) && !Over(s) && ThreadStep(s, t, c).Some?
    ensures Inv(ThreadStep(s, t, c).value)
  {
    hide ThreadStep, LockInv, CycleInv, ThreadsInv, ArmInv, WriteInv, CancelsLive;
    if ThreadStep(s, t, c).value.exited {
      ExitStep(s, t, c);
    } else {
      assert Fits(t, At(s, t)) by { assert LockInv(s); FitsAll(s, t); }
      StepShape(s, t, c);
      LockStep(s, ThreadStep(s, t, c).value, t);
      CycleStep(s, t, c);
      ThreadsStep(s, t, c);
      WriteStep(s, t, c);
      ArmStep(s, t, c);
      CancelsStep(s, t, c);
    }
  }

  lemma FitsAll(s: State, t: ThreadId)
    requires LockInv(s)
    ensures Fits(t, At(s, t)) && At(s, t).held == Scope(At(s, t).loc)
  {
  }

  lemma WatchdogStepKeepsInv(s: State, k: nat, c: Choice)
    requires Inv(s) && WatchdogStep(s, k, c).Some?
    ensures Inv(WatchdogStep(s, k, c).value)
  {
    var s' := WatchdogStep(s, k, c).value;
    Frame(s, s');
    hide LockInv, CycleInv, ThreadsInv, WriteInv, Stage, At;
    forall t
      ensures ArmPart(At(s', t), s'.mem, s'.log)
    {
      assert ArmPart(At(s, t), s.mem, s.log);
    }
  }

  /** Every state of every schedule. */
  lemma {:induction false} ReachableInv(sched: Schedule)
    requires Exec(sched).Some?
    ensures Inv(Exec(sched).value)
  {
    if sched != [] {
      var prefix := sched[..|sched| - 1];
      var s := Exec(prefix).value;
      var c := sched[|sched| - 1].1;
      ReachableInv(prefix);
      hide Inv, ThreadStep, WatchdogStep;
      match sched[|sched| - 1].0
      case ThreadActor(t) => ThreadStepKeepsInv(s, t, c);
      case WatchdogActor(k) => WatchdogStepKeepsInv(s, k, c);
    }
  }

  /** The state after the first `i` steps. */
  function StateAt(sched: Schedule, i: nat): State
    requires Exec(sched).Some? && i <= |sched|
  {
    PrefixRuns(sched, i);
    Exec(sched[..i]).value
  }

  lemma StateAtEnd(sched: Schedule)
    requires Exec(sched).Some?
    ensures StateAt(sched, |sched|) == Exec(sched).value
  {
    assert sched[..|sched|] == sched;
  }

  lemma StateAtStep(sched: Schedule, i: nat)
    requires Exec(sched).Some? && i < |sched|
    ensures Step(StateAt(sched, i), sched[i].0, sched[i].1) == Some(StateAt(sched, i + 1))
    ensures Inv(StateAt(sched, i)) && Inv(StateAt(sched, i + 1))
  {
    PrefixRuns(sched, i);
    PrefixRuns(sched, i + 1);
    ReachableInv(sched[..i]);
    ReachableInv(sched[..i + 1]);
  }
}
