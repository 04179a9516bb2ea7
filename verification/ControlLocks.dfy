/** What the control client's locking gives in every interleaving: no nesting, no circle of
    waiting threads, one writer, and a CancelStream that never waits for a blocked writer. */
module ControlLocks {
  import opened Common
  import opened ControlProgram
  import opened ControlInvariant

  /** The thread holds `m` at a location that lies in the scope of `m` only. */
  lemma HeldAlone(s: State, t: ThreadId, m: Mutex)
    requires LockInv(s)
    ensures At(s, t).held == Scope(At(s, t).loc) && |At(s, t).held| <= 1
    ensures m in At(s, t).held ==> At(s, t).held == [m]
  {
    FitsAll(s, t);
    ScopeIsShort(At(s, t).loc);
    hide LockInv, Scope;
  }

  /** No thread is ever inside two of the three scopes, and one that waits for a mutex, or is
      about to, holds none. */
  lemma LocksAreNeverNested(sched: Schedule, t: ThreadId)
    requires Exec(sched).Some?
    ensures |At(Exec(sched).value, t).held| <= 1
    ensures Code(At(Exec(sched).value, t).loc).Lock? ==> At(Exec(sched).value, t).held == []
  {
    var s := Exec(sched).value;
    ReachableInv(sched);
    HeldAlone(s, t, CtxMutex);
    TextKeepsScopes(At(s, t).loc);
    match Code(At(s, t).loc)
    case Lock(m, next) => ScopeIsShort(next);
    case _ =>
  }

  lemma ScopeActs(th: Thread, r: RunLoc, mem: Memory, c: Choice)
    requires RunScope(r) != []
    ensures RunCode(r) == Act ==> RunAct(th, r, mem, c).Goes?
    ensures RunCode(r) == Act || RunCode(r).Unlock?
  {
  }

  lemma HolderGoesOn(s: State, t: ThreadId, c: Choice)
    requires Fits(t, At(s, t)) && At(s, t).held == Scope(At(s, t).loc) != []
    ensures ThreadStep(s, t, c).Some?
  {
    hide RunAct, RunCode, RunScope, CancelAct, SendAct, KeepaliveAct, Running;
    if At(s, t).loc.InRun? {
      ScopeActs(At(s, t), At(s, t).loc.run, s.mem, c);
    }
  }

  /** A thread inside a scope can always go on: only the call of Write may take its time. */
  lemma HoldersGoOn(sched: Schedule, t: ThreadId, c: Choice)
    requires Exec(sched).Some? && At(Exec(sched).value, t).held != []
    ensures ThreadStep(Exec(sched).value, t, c).Some?
  {
    hide Exec, ThreadStep, LockInv;
    ReachableInv(sched);
    FitsAll(Exec(sched).value, t);
    HolderGoesOn(Exec(sched).value, t, c);
  }

  lemma RunGoesOn(th: Thread, r: RunLoc, mem: Memory, c: Choice)
    requires RunCode(r) == Act && OUTSIDE < r <= BUMP_GENERATION
    ensures !RunAct(th, r, mem, c).Blocks?
  {
  }

  /** Only a lock, a join and the head of the reconnect loop can hold a running thread up. */
  lemma OnlyWaitsBlock(s: State, t: ThreadId, c: Choice)
    requires Fits(t, At(s, t)) && At(s, t).held == Scope(At(s, t).loc)
    requires At(s, t).loc != Off && At(s, t).loc != InRun(OUTSIDE)
    requires !Code(At(s, t).loc).Lock? && !Code(At(s, t).loc).Join?
    ensures ThreadStep(s, t, c).Some?
  {
    hide RunAct, RunScope, RunCode, SendAct, CancelAct, Running;
    TextKeepsScopes(At(s, t).loc);
    if At(s, t).loc.InRun? && RunCode(At(s, t).loc.run) == Act {
      RunGoesOn(At(s, t), At(s, t).loc.run, s.mem, c);
    }
  }

  /** The thread that has to go on for `t` to get its lock or its join. */
  predicate WaitsFor(s: State, t: ThreadId, v: ThreadId) {
    match Code(At(s, t).loc)
    case Lock(m, _) => m in s.owner && s.owner[m] == v
    case Join(u, _) =>
      v == u ||
      (match Code(At(s, u).loc)
       case Lock(m, _) => m in s.owner && s.owner[m] == v
       case _ => false)
    case _ => false
  }

  /** The owner of a mutex someone waits for can go on. */
  lemma OwnerGoesOn(s: State, t: ThreadId, m: Mutex)
    requires LockInv(s) && At(s, t).held == [] && m in s.owner
    ensures s.owner[m] != t && forall d :: ThreadStep(s, s.owner[m], d).Some?
  {
    hide ThreadStep, Scope, Fits;
    var v := s.owner[m];
    assert m in At(s, v).held <==> m in s.owner && s.owner[m] == v;
    FitsAll(s, v);
    forall d
      ensures ThreadStep(s, v, d).Some?
    {
      HolderGoesOn(s, v, d);
    }
  }

  lemma LockersHoldNothing(loc: Loc)
    ensures Code(loc).Lock? || Code(loc).Join? ==> Scope(loc) == []
  {
    TextKeepsScopes(loc);
    if Code(loc).Lock? {
      ScopeIsShort(Code(loc).next);
    }
    hide Code, Scope;
  }

  /** Only the main thread joins, and it joins the helpers. */
  lemma JoinersAndJoined(t: ThreadId, th: Thread)
    requires Fits(t, th) && Code(th.loc).Join?
    ensures t == Main && (Code(th.loc).t == Keepalive || Code(th.loc).t == Pump)
  {
  }

  /** So in every reachable state a thread that is held up waits for one that is not: for the
      owner of the mutex, or for the thread to join, or for the owner of the mutex that one waits
      for. The exception is a main thread whose reconnect loop has ended. */
  lemma NoCircleOfWaiting(sched: Schedule, t: ThreadId, c: Choice) returns (v: ThreadId)
    requires Exec(sched).Some? && ThreadStep(Exec(sched).value, t, c).None?
    requires var loc := At(Exec(sched).value, t).loc; loc != Off && loc != InRun(OUTSIDE)
    ensures v != t && WaitsFor(Exec(sched).value, t, v)
    ensures forall d :: ThreadStep(Exec(sched).value, v, d).Some?
  {
    hide Exec, Fits, Scope, LockInv, CycleInv, ThreadsInv, WriteInv, ArmInv, RunCode;
    var s := Exec(sched).value;
    ReachableInv(sched);
    FitsAll(s, t);
    LockersHoldNothing(At(s, t).loc);
    match Code(At(s, t).loc)
    case Lock(m, _) =>
      LockStepBlocks(s, t, c);
      OwnerGoesOn(s, t, m);
      v := s.owner[m];
    case Join(u, _) =>
      v := JoinedGoesOn(s, t, u, c);
    case _ =>
      OnlyWaitsBlock(s, t, c);
      assert false;
  }

  lemma LockStepBlocks(s: State, t: ThreadId, c: Choice)
    requires Code(At(s, t).loc).Lock?
    ensures ThreadStep(s, t, c).None? <==> Code(At(s, t).loc).m in s.owner
  {
  }

  lemma JoinStepBlocks(s: State, t: ThreadId, c: Choice)
    requires Code(At(s, t).loc).Join?
    ensures ThreadStep(s, t, c).None? <==> At(s, Code(At(s, t).loc).t).loc != Off
  {
  }

  lemma JoinedGoesOn(s: State, t: ThreadId, u: ThreadId, c: Choice) returns (v: ThreadId)
    requires LockInv(s) && Code(At(s, t).loc).Join? && Code(At(s, t).loc).t == u && ThreadStep(s, t, c).None?
    ensures v != t && WaitsFor(s, t, v) && forall d :: ThreadStep(s, v, d).Some?
  {
    hide ThreadStep, Fits, Scope, LockInv, RunCode, At;
    FitsAll(s, t);
    FitsAll(s, u);
    JoinersAndJoined(t, At(s, t));
    JoinStepBlocks(s, t, c);
    LockersHoldNothing(At(s, t).loc);
    LockersHoldNothing(At(s, u).loc);
    HelperIsNotOutside(u, At(s, u));
    v := u;
    if Code(At(s, u).loc).Lock? && Code(At(s, u).loc).m in s.owner {
      v := s.owner[Code(At(s, u).loc).m];
      OwnerGoesOn(s, t, Code(At(s, u).loc).m);
    } else {
      forall d
        ensures ThreadStep(s, u, d).Some?
      {
        if Code(At(s, u).loc).Lock? {
          LockStepBlocks(s, u, d);
        } else {
          OnlyWaitsBlock(s, u, d);
        }
      }
    }
  }

  lemma HelperIsNotOutside(u: ThreadId, th: Thread)
    requires Fits(u, th) && (u == Keepalive || u == Pump)
    ensures th.loc != InRun(OUTSIDE) && !Code(th.loc).Join?
  {
  }

  /** At most one thread is ever in Write, as gRPC demands. */
  lemma SingleWriter(sched: Schedule, t: ThreadId, u: ThreadId)
    requires Exec(sched).Some?
    requires At(Exec(sched).value, t).loc == InSend(Writing)
    requires At(Exec(sched).value, u).loc == InSend(Writing)
    ensures t == u
  {
    var s := Exec(sched).value;
    ReachableInv(sched);
    FitsAll(s, t);
    FitsAll(s, u);
    OneHolder(s, WriteMutex, t, u);
  }

  lemma HelpersOff(s: State)
    requires Inv(s)
    ensures Stage(s) >= CLEANUP_CANCEL ==> At(s, Keepalive).loc == Off && At(s, Pump).loc == Off
  {
    hide LockInv, CycleInv, WriteInv, ArmInv, Stage, At;
  }

  /** The keepalive and pump threads are gone before the main thread cleans up after them. */
  lemma HelpersEndBeforeCleanup(sched: Schedule)
    requires Exec(sched).Some?
    ensures var s := Exec(sched).value;
            Stage(s) >= CLEANUP_CANCEL ==> At(s, Keepalive).loc == Off && At(s, Pump).loc == Off
  {
    hide *;
    ReachableInv(sched);
    HelpersOff(Exec(sched).value);
  }

  /** Every TryCancel ever made went to the context of the RunOnce that was active, while it
      existed. */
  lemma CancelsHitTheActiveCycle(sched: Schedule)
    requires Exec(sched).Some?
    ensures var cancels := Exec(sched).value.log.cancels;
            forall i :: 0 <= i < |cancels| ==> cancels[i].live
  {
    ReachableInv(sched);
  }

  /** As long as a Write is blocked, the stream it is on and the context belong to the RunOnce
      that is active, and exist. */
  lemma WritesStayInTheirCycle(sched: Schedule, t: ThreadId)
    requires Exec(sched).Some? && At(Exec(sched).value, t).loc == InSend(Writing)
    ensures var s := Exec(sched).value;
            && Running(s) && At(s, t).target == Some(s.mem.cycle)
            && s.mem.stream == s.mem.ctx == s.mem.alive == Some(s.mem.cycle)
  {
    ReachableInv(sched);
    var s := Exec(sched).value;
    FitsAll(s, t);
    SendersSeeStream(s, t);
    RunningIsStage(s);
    hide Exec, LockInv, CycleInv, ThreadsInv, ArmInv, Stage;
  }

  // ---- CancelStream never waits for a writer ----------------------------------------------

  /** Steps to the end of a scope of CtxMutex. */
  function StepsLeft(loc: Loc): nat {
    match loc
    case InRun(r) => if r == SET_CTX || r == CLEAR_CTX then 2 else 1
    case InCancel(TestCtx) => 7
    case InCancel(TryCancel) => 6
    case InCancel(ExchangeArmed) => 5
    case InCancel(ReadEnvironment) => 4
    case InCancel(LoadGeneration) => 3
    case InCancel(StartWatchdog) => 2
    case _ => 1
  }

  /** The thread is on its way to TryCancel. */
  predicate WillCancel(s: State, u: ThreadId) {
    var loc := At(s, u).loc;
    (loc == InCancel(TestCtx) && s.mem.ctx.Some?) || loc == InCancel(TryCancel)
  }

  /** `u` makes a step in its scope of CtxMutex, or out of it, and nobody else moves. */
  ghost predicate ScopeStep(s: State, s': State, u: ThreadId) {
    var th, th' := At(s, u), At(s', u);
    && !Over(s') && (forall v :: v != u ==> At(s', v) == At(s, v))
    && (if th'.held == [] then CtxMutex !in s'.owner
        else th'.held == [CtxMutex] && StepsLeft(th'.loc) < StepsLeft(th.loc))
    && |s'.log.cancels| >= |s.log.cancels|
    && (th.loc.InCancel? ==>
          && th'.ret == th.ret && s'.mem.ctx == s.mem.ctx
          && (if th'.held == [] then th'.loc == InCancel(CancelReturns) else th'.loc.InCancel?))
    && (WillCancel(s, u) ==> |s'.log.cancels| > |s.log.cancels| || (WillCancel(s', u) && th'.held != []))
  }

  lemma CtxScopeText(th: Thread, r: RunLoc, mem: Memory, c: Choice)
    requires RunScope(r) == [CtxMutex]
    ensures if r == SET_CTX || r == CLEAR_CTX
            then RunCode(r) == Act && RunAct(th, r, mem, c).Goes? && RunAct(th, r, mem, c).loc == InRun(r + 1)
            else RunCode(r).Unlock? && RunCode(r).next != InRun(SET_CTX) && RunCode(r).next != InRun(CLEAR_CTX)
  {
  }

  lemma UnlockLeaves(s: State, u: ThreadId, c: Choice)
    requires !Over(s) && At(s, u).held == [CtxMutex] && Code(At(s, u).loc).Unlock?
    requires At(s, u).loc.InCancel? ==> At(s, u).loc == InCancel(UnlockCancel)
    ensures ThreadStep(s, u, c).Some? && ScopeStep(s, ThreadStep(s, u, c).value, u)
  {
    hide StepsLeft, RunCode, RunAct;
    assert [CtxMutex][..0] == [];
  }

  lemma CtxScopeRun(s: State, u: ThreadId, c: Choice)
    requires !Over(s) && At(s, u).loc.InRun? && At(s, u).held == Scope(At(s, u).loc) == [CtxMutex]
    ensures ThreadStep(s, u, c).Some? && ScopeStep(s, ThreadStep(s, u, c).value, u)
  {
    hide RunAct, RunCode, RunScope;
    CtxScopeText(At(s, u), At(s, u).loc.run, s.mem, c);
    if RunCode(At(s, u).loc.run).Unlock? {
      UnlockLeaves(s, u, c);
    }
  }

  /** A statement of CancelStream comes closer to the unlock and loses no TryCancel. */
  lemma CancelActProgress(th: Thread, x: CancelLoc, mem: Memory, log: Log, running: bool, c: Choice)
    requires th.loc == InCancel(x) && Code(th.loc) == Act
    ensures var (th', mem', log') := CancelAct(th, x, mem, log, running, c);
            && th'.loc.InCancel? && StepsLeft(th'.loc) < StepsLeft(th.loc)
            && th'.held == th.held && th'.ret == th.ret && mem'.ctx == mem.ctx
            && |log'.cancels| == |log.cancels| + (if x == TryCancel then 1 else 0)
            && (x == TestCtx && mem.ctx.Some? ==> th'.loc == InCancel(TryCancel))
  {
  }

  lemma CtxScopeCancel(s: State, u: ThreadId, c: Choice)
    requires !Over(s) && At(s, u).loc.InCancel? && At(s, u).held == Scope(At(s, u).loc) == [CtxMutex]
    ensures ThreadStep(s, u, c).Some? && ScopeStep(s, ThreadStep(s, u, c).value, u)
  {
    hide StepsLeft, CancelAct, Running;
    var th := At(s, u);
    if Code(th.loc) == Act {
      CancelActProgress(th, th.loc.cancel, s.mem, s.log, Running(s), c);
    } else {
      UnlockLeaves(s, u, c);
    }
  }

  /** So a thread that holds CtxMutex is never blocked: it holds nothing else and waits for
      nothing. */
  lemma CtxScopeStep(s: State, u: ThreadId, c: Choice)
    requires LockInv(s) && !Over(s) && CtxMutex in At(s, u).held
    ensures ThreadStep(s, u, c).Some? && ScopeStep(s, ThreadStep(s, u, c).value, u)
  {
    hide LockInv, ThreadStep, ScopeStep, At;
    HeldAlone(s, u, CtxMutex);
    if At(s, u).loc.InRun? {
      CtxScopeRun(s, u, c);
    } else {
      CtxScopeCancel(s, u, c);
    }
  }

  lemma StepsLeftBound(loc: Loc)
    ensures 1 <= StepsLeft(loc) <= 7
  {
  }

  /** Nobody else moves a thread that is inside a scope. */
  lemma OthersLeaveHolder(s: State, a: Actor, c: Choice, u: ThreadId)
    requires Inv(s) && Step(s, a, c).Some? && a != ThreadActor(u) && At(s, u).held != []
    ensures At(Step(s, a, c).value, u) == At(s, u)
  {
    hide LockInv, CycleInv, WriteInv, ArmInv, ThreadStep, Fits, Scope, ThreadsInv, Moved;
    match a
    case WatchdogActor(_) =>
    case ThreadActor(t) =>
      FitsAll(s, t);
      FitsAll(s, u);
      if ThreadStep(s, t, c).value.exited {
        ExitKeepsThreads(s, t, c);
      } else {
        StepShape(s, t, c);
        if Elsewhere(s, t, u) != At(s, u) {
          SpawnedWereOff(s, t, u);
        }
      }
  }

  lemma ExitKeepsThreads(s: State, t: ThreadId, c: Choice)
    requires !s.exited && ThreadStep(s, t, c).Some? && ThreadStep(s, t, c).value.exited
    ensures ThreadStep(s, t, c).value.threads == s.threads
  {
    hide RunAct, RunCode, KeepaliveAct, PumpAct, SendAct, CancelAct;
  }

  /** How many of the steps from `i` up to `j` thread `u` takes. */
  function OwnSteps(sched: Schedule, i: nat, j: nat, u: ThreadId): nat
    requires j <= |sched|
  {
    if j <= i then 0 else OwnSteps(sched, i, j - 1, u) + if sched[j - 1].0 == ThreadActor(u) then 1 else 0
  }

  /** In every schedule, whatever the others do in between, a thread gives ctx_mutex_ back with
      at most its seventh step: as long as it holds it, it has taken fewer. */
  lemma {:induction false} HolderLeavesSoon(sched: Schedule, i: nat, j: nat, u: ThreadId)
    requires Exec(sched).Some? && i <= j <= |sched|
    requires forall k :: i <= k <= j ==> CtxMutex in At(StateAt(sched, k), u).held
    ensures OwnSteps(sched, i, j, u) + StepsLeft(At(StateAt(sched, j), u).loc)
            <= StepsLeft(At(StateAt(sched, i), u).loc)
    ensures OwnSteps(sched, i, j, u) < 7
  {
    hide StateAt, Exec, Step, At, StepsLeft, LockInv, CycleInv, ThreadsInv, WriteInv, ArmInv, Over, ThreadStep;
    if i < j {
      HolderLeavesSoon(sched, i, j - 1, u);
      HolderStep(sched, j - 1, u);
    }
    StepsLeftBound(At(StateAt(sched, i), u).loc);
    StepsLeftBound(At(StateAt(sched, j), u).loc);
  }

  lemma HolderStep(sched: Schedule, k: nat, u: ThreadId)
    requires Exec(sched).Some? && k < |sched|
    requires CtxMutex in At(StateAt(sched, k), u).held && CtxMutex in At(StateAt(sched, k + 1), u).held
    ensures if sched[k].0 == ThreadActor(u)
            then StepsLeft(At(StateAt(sched, k + 1), u).loc) < StepsLeft(At(StateAt(sched, k), u).loc)
            else At(StateAt(sched, k + 1), u) == At(StateAt(sched, k), u)
  {
    hide StateAt, Exec, At, StepsLeft, LockInv, CycleInv, ThreadsInv, WriteInv, ArmInv, ThreadStep, WatchdogStep;
    StateAtStep(sched, k);
    var s := StateAt(sched, k);
    if sched[k].0 == ThreadActor(u) {
      CtxScopeStep(s, u, sched[k].1);
    } else {
      OthersLeaveHolder(s, sched[k].0, sched[k].1, u);
    }
  }

  /** `later` goes on after `sched` with steps of thread `u` only. */
  ghost predicate GoesOnWith(sched: Schedule, later: Schedule, u: ThreadId) {
    && |sched| <= |later| && later[..|sched|] == sched
    && forall i :: |sched| <= i < |later| ==> later[i].0 == ThreadActor(u)
  }

  /** From `s` to `s'` the thread `u` left its scope of CtxMutex and nobody else moved. */
  ghost predicate LeftScope(s: State, s': State, u: ThreadId) {
    && !Over(s') && CtxMutex !in s'.owner && (forall v :: v != u ==> At(s', v) == At(s, v))
    && |s'.log.cancels| >= |s.log.cancels|
    && (At(s, u).loc.InCancel? ==>
          && At(s', u).loc == InCancel(CancelReturns) && At(s', u).ret == At(s, u).ret
          && s'.mem.ctx == s.mem.ctx)
    && (WillCancel(s, u) ==> |s'.log.cancels| > |s.log.cancels|)
  }

  lemma EarlierScopeStep(s: State, s1: State, s': State, u: ThreadId)
    requires ScopeStep(s, s1, u) && At(s1, u).held != [] && LeftScope(s1, s', u)
    ensures LeftScope(s, s', u)
  {
    hide At, StepsLeft;
  }

  lemma LastScopeStep(s: State, s': State, u: ThreadId)
    requires ScopeStep(s, s', u) && At(s', u).held == []
    ensures LeftScope(s, s', u)
  {
    hide At, StepsLeft;
  }

  /** It gets out in at most seven steps of its own. */
  lemma {:induction false} LeaveCtxScope(sched: Schedule, u: ThreadId) returns (later: Schedule)
    requires Exec(sched).Some? && Inv(Exec(sched).value) && !Over(Exec(sched).value)
    requires CtxMutex in At(Exec(sched).value, u).held
    ensures GoesOnWith(sched, later, u) && Exec(later).Some? && Inv(Exec(later).value)
    ensures |later| <= |sched| + StepsLeft(At(Exec(sched).value, u).loc)
    ensures LeftScope(Exec(sched).value, Exec(later).value, u)
    decreases StepsLeft(At(Exec(sched).value, u).loc)
  {
    hide ThreadStep, At, LeftScope, Exec, WillCancel, LockInv, CycleInv, ThreadsInv, WriteInv, ArmInv;
    var s := Exec(sched).value;
    CtxScopeStep(s, u, Second);
    ThreadStepKeepsInv(s, u, Second);
    var next := sched + [(ThreadActor(u), Second)];
    var s1 := ThreadStep(s, u, Second).value;
    ExecNext(sched, ThreadActor(u), Second);
    assert StepsLeft(At(s, u).loc) >= 1;
    if At(s1, u).held == [] {
      LastScopeStep(s, s1, u);
      later := next;
    } else {
      assert StepsLeft(At(s1, u).loc) < StepsLeft(At(s, u).loc);
      later := LeaveCtxScope(next, u);
      EarlierScopeStep(s, s1, Exec(later).value, u);
      assert later[..|sched|] == later[..|next|][..|sched|];
      assert forall i :: |sched| <= i < |next| ==> later[i] == later[..|next|][i];
    }
  }

  predicate StuckInWrite(s: State, writer: ThreadId) {
    At(s, writer).loc == InSend(Writing)
  }

  predicate AboutToCancel(s: State, t: ThreadId) {
    At(s, t).loc == InCancel(LockCancel)
  }

  ghost predicate AvoidsWriter(sched: Schedule, later: Schedule, writer: ThreadId) {
    && |sched| <= |later| && later[..|sched|] == sched
    && forall i :: |sched| <= i < |later| ==> later[i].0 != ThreadActor(writer)
  }

  lemma AvoidsOn(sched: Schedule, mid: Schedule, later: Schedule, writer: ThreadId, u: ThreadId)
    requires AvoidsWriter(sched, mid, writer) && GoesOnWith(mid, later, u) && u != writer
    ensures AvoidsWriter(sched, later, writer)
  {
    assert later[..|sched|] == later[..|mid|][..|sched|];
    forall i | |sched| <= i < |later|
      ensures later[i].0 != ThreadActor(writer)
    {
      if i < |mid| {
        assert later[i] == later[..|mid|][i];
      }
    }
  }

  /** Whoever owns CtxMutex is neither the writer nor waiting for it, and gets out of the way. */
  lemma CtxGetsFree(sched: Schedule, writer: ThreadId, canceller: ThreadId) returns (later: Schedule)
    requires Exec(sched).Some?
    requires var s := Exec(sched).value;
             Inv(s) && !Over(s) && StuckInWrite(s, writer) && AboutToCancel(s, canceller)
    ensures AvoidsWriter(sched, later, writer) && |later| <= |sched| + 7 && Exec(later).Some?
    ensures var s, s' := Exec(sched).value, Exec(later).value;
            && Inv(s') && !Over(s') && CtxMutex !in s'.owner
            && At(s', writer) == At(s, writer) && At(s', canceller) == At(s, canceller)
            && |s'.log.cancels| >= |s.log.cancels|
  {
    var s := Exec(sched).value;
    later := sched;
    if CtxMutex in s.owner {
      var u := s.owner[CtxMutex];
      assert CtxMutex in At(s, u).held by { assert LockInv(s); }
      HeldAlone(s, u, CtxMutex);
      HeldAlone(s, writer, WriteMutex);
      HeldAlone(s, canceller, CtxMutex);
      assert u != writer && u != canceller && StepsLeft(At(s, u).loc) <= 7;
      hide Exec, Inv, At, StepsLeft, Scope;
      later := LeaveCtxScope(sched, u);
      AvoidsOn(sched, sched, later, writer, u);
    }
  }

  lemma EnterCtxScope(s: State, t: ThreadId)
    requires !Over(s) && AboutToCancel(s, t) && CtxMutex !in s.owner
    ensures ThreadStep(s, t, Second).Some?
    ensures var s' := ThreadStep(s, t, Second).value;
            && !Over(s') && CtxMutex in At(s', t).held
            && At(s', t).loc == InCancel(TestCtx) && At(s', t).ret == At(s, t).ret
            && s'.log == s.log && s'.mem == s.mem && forall v :: v != t ==> At(s', v) == At(s, v)
  {
  }

  lemma ReturnFromCancel(s: State, t: ThreadId)
    requires !Over(s) && At(s, t).loc == InCancel(CancelReturns)
    ensures ThreadStep(s, t, Second).Some?
    ensures var s' := ThreadStep(s, t, Second).value;
            && At(s', t).loc == At(s, t).ret
            && s'.log == s.log && s'.mem == s.mem && forall v :: v != t ==> At(s', v) == At(s, v)
  {
  }

  /** With CtxMutex free, CancelStream runs through and returns. */
  lemma CancelRunsThrough(sched: Schedule, writer: ThreadId, canceller: ThreadId) returns (later: Schedule)
    requires Exec(sched).Some? && writer != canceller
    requires var s := Exec(sched).value;
             Inv(s) && !Over(s) && CtxMutex !in s.owner && AboutToCancel(s, canceller)
    ensures AvoidsWriter(sched, later, writer) && |later| <= |sched| + 9 && Exec(later).Some?
    ensures var s, s' := Exec(sched).value, Exec(later).value;
            && At(s', writer) == At(s, writer) && At(s', canceller).loc == At(s, canceller).ret
            && |s'.log.cancels| >= |s.log.cancels|
            && (s'.mem.ctx.Some? ==> |s'.log.cancels| > |s.log.cancels|)
  {
    hide ThreadStep, Inv, At, Exec;
    var s := Exec(sched).value;
    var entered := sched + [(ThreadActor(canceller), Second)];
    EnterCtxScope(s, canceller);
    ThreadStepKeepsInv(s, canceller, Second);
    ExecNext(sched, ThreadActor(canceller), Second);
    assert AvoidsWriter(sched, entered, writer);
    var out := LeaveCtxScope(entered, canceller);
    AvoidsOn(sched, entered, out, writer, canceller);
    ReturnFromCancel(Exec(out).value, canceller);
    ExecNext(out, ThreadActor(canceller), Second);
    later := out + [(ThreadActor(canceller), Second)];
    AvoidsOn(sched, out, later, writer, canceller);
  }

  /** Whoever is stuck in Write, a thread about to cancel gets through CancelStream, in at most
      sixteen steps none of which the writer takes; if a context is stashed then, TryCancel was
      called on it. */
  lemma CancelNeverWaitsForWriter(sched: Schedule, writer: ThreadId, canceller: ThreadId)
    returns (later: Schedule)
    requires Exec(sched).Some?
    requires var s := Exec(sched).value;
             !Over(s) && StuckInWrite(s, writer) && AboutToCancel(s, canceller)
    ensures AvoidsWriter(sched, later, writer) && |later| <= |sched| + 16 && Exec(later).Some?
    ensures var s, s' := Exec(sched).value, Exec(later).value;
            && StuckInWrite(s', writer) && At(s', canceller).loc == At(s, canceller).ret
            && (s'.mem.ctx.Some? ==> |s'.log.cancels| > |s.log.cancels|)
  {
    ReachableInv(sched);
    assert writer != canceller;
    var free := CtxGetsFree(sched, writer, canceller);
    later := CancelRunsThrough(free, writer, canceller);
    assert later[..|sched|] == later[..|free|][..|sched|];
    forall i | |sched| <= i < |later|
      ensures later[i].0 != ThreadActor(writer)
    {
      if i < |free| {
        assert later[i] == later[..|free|][i];
      }
    }
  }
}
