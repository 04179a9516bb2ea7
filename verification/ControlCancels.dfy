/** When the control client must call TryCancel: after a failure, after a request to stop, and at
    the end of every connection; and that its helper threads do not go away unnoticed. */
module ControlCancels {
  import opened Common
  import opened ControlProgram
  import opened ControlInvariant
  import opened ControlLocks
  import opened ControlWatchdog

  /** TryCancel was called on the context of this cycle. */
  predicate Touched(log: Log, cycle: nat) {
    exists i :: 0 <= i < |log.cancels| && log.cancels[i].context == Some(cycle)
  }

  /** In CancelStream, before the call of TryCancel, and after it. */
  predicate BeforeTry(th: Thread) {
    th.loc.InCancel? && th.loc.cancel in {LockCancel, TestCtx, TryCancel}
  }

  predicate AfterTry(th: Thread) {
    th.loc.InCancel? && !BeforeTry(th)
  }

  /** The keepalive thread has found a failure and has not called TryCancel yet. */
  predicate OnTheWay(th: Thread) {
    th.loc == InKeepalive(KeepaliveCancel) || BeforeTry(th)
  }

  // ---- What holds in every state ----------------------------------------------------------

  predicate MainDuty(th: Thread, mem: Memory, log: Log) {
    AfterTry(th) || (th.loc.InRun? && LOCK_MOVE <= th.loc.run <= DESTROY_CONTEXT) ==> Touched(log, mem.cycle)
  }

  predicate KeepaliveDuty(th: Thread, mem: Memory, log: Log) {
    && (AfterTry(th) || th.loc == InKeepalive(KeepaliveEnd) ==> Touched(log, mem.cycle))
    && (th.loc.InCancel? || th.loc == InKeepalive(KeepaliveCancel) || th.loc == InKeepalive(KeepaliveEnd) ==>
          mem.failed)
  }

  /** `r` is the stage of the main thread. */
  predicate FailureDuty(keepalive: Thread, mem: Memory, log: Log, r: nat) {
    && (mem.failed && r != CLEAR_FAILED ==> Touched(log, mem.cycle) || OnTheWay(keepalive))
    && (DECLARE_STOP < r <= END_THREADS && mem.connectionStop ==> mem.failed && Touched(log, mem.cycle))
  }

  predicate HelpersDuty(keepalive: Thread, pump: Thread, mem: Memory, r: nat) {
    && (MayHaveKeepalive(r) && keepalive.loc == Off ==> mem.connectionStop || mem.stop)
    && (MayHavePump(r) && pump.loc == Off ==> mem.connectionStop || mem.stop)
  }

  predicate Duties(s: State) {
    && MainDuty(At(s, Main), s.mem, s.log)
    && KeepaliveDuty(At(s, Keepalive), s.mem, s.log)
    && FailureDuty(At(s, Keepalive), s.mem, s.log, Stage(s))
    && HelpersDuty(At(s, Keepalive), At(s, Pump), s.mem, Stage(s))
  }

  lemma TouchedStays(log: Log, log': Log, cycle: nat)
    requires Touched(log, cycle) && log.cancels <= log'.cancels
    ensures Touched(log', cycle)
  {
    var i :| 0 <= i < |log.cancels| && log.cancels[i].context == Some(cycle);
    assert log'.cancels[i] == log.cancels[i];
  }

  // ---- CancelStream -----------------------------------------------------------------------

  /** What a step in CancelStream leaves alone, whoever takes it. */
  predicate CancelFrame(s: State, s': State) {
    && s'.mem.cycle == s.mem.cycle && s'.mem.failed == s.mem.failed && s'.mem.stop == s.mem.stop
    && s'.mem.connectionStop == s.mem.connectionStop && s.log.cancels <= s'.log.cancels
  }

  lemma CancelActDuty(th: Thread, x: CancelLoc, mem: Memory, log: Log, running: bool, c: Choice)
    requires th.loc == InCancel(x) && Code(th.loc) == Act
    ensures var (th', mem', log') := CancelAct(th, x, mem, log, running, c);
            && th'.loc.InCancel? && th'.ret == th.ret
            && mem'.cycle == mem.cycle && mem'.failed == mem.failed && mem'.stop == mem.stop
            && mem'.connectionStop == mem.connectionStop && mem'.ctx == mem.ctx
            && log.cancels <= log'.cancels
            && (x == TestCtx && mem.ctx.Some? ==> th'.loc == InCancel(TryCancel) && log' == log)
            && (x == TryCancel && mem.ctx.Some? ==> Touched(log', mem.ctx.value))
            && (AfterTry(th) ==> AfterTry(th'))
  {
    var log' := CancelAct(th, x, mem, log, running, c).2;
    if x == TryCancel && mem.ctx.Some? {
      assert log'.cancels[|log.cancels|].context == mem.ctx;
    }
  }

  /** With a context stashed, CancelStream does not return without TryCancel. */
  ghost predicate CancelStepped(s: State, s': State, t: ThreadId) {
    var th, th' := At(s, t), At(s', t);
    && CancelFrame(s, s')
    && ((th'.loc.InCancel? && th'.ret == th.ret) || th'.loc == th.ret)
    && (!BeforeTry(th') ==> Touched(s'.log, s.mem.cycle))
  }

  lemma CancelActStep(s: State, t: ThreadId, c: Choice)
    requires At(s, t).loc.InCancel? && Code(At(s, t).loc) == Act && s.mem.ctx == Some(s.mem.cycle)
    requires ActStep(s, t, c).Some? && (AfterTry(At(s, t)) ==> Touched(s.log, s.mem.cycle))
    ensures CancelStepped(s, ActStep(s, t, c).value, t)
  {
    hide Touched, CancelAct, Running;
    var th := At(s, t);
    CancelActDuty(th, th.loc.cancel, s.mem, s.log, Running(s), c);
    if AfterTry(th) {
      TouchedStays(s.log, ActStep(s, t, c).value.log, s.mem.cycle);
    }
  }

  lemma CancelTextStep(s: State, t: ThreadId, c: Choice)
    requires Fits(t, At(s, t)) && At(s, t).loc.InCancel? && Code(At(s, t).loc) != Act
    requires ThreadStep(s, t, c).Some? && (AfterTry(At(s, t)) ==> Touched(s.log, s.mem.cycle))
    ensures CancelStepped(s, ThreadStep(s, t, c).value, t)
  {
    hide Touched, ActStep;
  }

  lemma CancelStepDuty(s: State, t: ThreadId, c: Choice)
    requires Fits(t, At(s, t)) && At(s, t).loc.InCancel? && s.mem.ctx == Some(s.mem.cycle)
    requires ThreadStep(s, t, c).Some? && (AfterTry(At(s, t)) ==> Touched(s.log, s.mem.cycle))
    ensures CancelStepped(s, ThreadStep(s, t, c).value, t)
  {
    hide ThreadStep, ActStep, Code, Fits, At, Touched, CancelStepped;
    if Code(At(s, t).loc) == Act {
      StepIsAct(s, t, c);
      CancelActStep(s, t, c);
    } else {
      CancelTextStep(s, t, c);
    }
  }

  // ---- The keepalive thread ---------------------------------------------------------------

  /** Its own statements: it ends only when told to, a failure leads to CancelStream, and the end
      of the connection is announced after that. */
  lemma KeepaliveActDuty(th: Thread, k: KeepaliveLoc, mem: Memory, c: Choice)
    requires th.loc == InKeepalive(k) && KeepaliveAct(th, k, mem, c).Goes?
    ensures var loc, mem' := KeepaliveAct(th, k, mem, c).loc, KeepaliveAct(th, k, mem, c).mem;
            && (loc == Off ==> mem'.connectionStop || mem'.stop)
            && !loc.InCancel? && loc != InKeepalive(KeepaliveEnd)
            && (loc == InKeepalive(KeepaliveCancel) <==> k == KeepaliveFail)
            && mem'.failed == (mem.failed || k == KeepaliveFail)
            && mem'.connectionStop == (mem.connectionStop || k == KeepaliveEnd)
            && mem'.cycle == mem.cycle && mem'.stop == mem.stop
  {
  }

  lemma KeepaliveActStep(s: State, c: Choice)
    requires Duties(s) && At(s, Keepalive).loc.InKeepalive? && Code(At(s, Keepalive).loc) == Act
    requires ActStep(s, Keepalive, c).Some? && !ActStep(s, Keepalive, c).value.exited
    ensures var s' := ActStep(s, Keepalive, c).value;
            && KeepaliveDuty(At(s', Keepalive), s'.mem, s'.log)
            && FailureDuty(At(s', Keepalive), s'.mem, s'.log, Stage(s))
            && (At(s', Keepalive).loc == Off ==> s'.mem.connectionStop || s'.mem.stop)
            && SameOutside(s, s')
  {
    hide KeepaliveAct, Touched, Stage;
    var th := At(s, Keepalive);
    KeepaliveActDuty(th, th.loc.keepalive, s.mem, c);
  }

  /** What the duties of the other threads depend on does not change for the worse. */
  predicate SameOutside(s: State, s': State) {
    && s'.mem.cycle == s.mem.cycle && (s.mem.stop ==> s'.mem.stop)
    && (s.mem.connectionStop ==> s'.mem.connectionStop) && s.log.cancels <= s'.log.cancels
  }

  lemma KeepaliveTextStep(s: State, c: Choice)
    requires Inv(s) && Duties(s) && ThreadStep(s, Keepalive, c).Some? && !ThreadStep(s, Keepalive, c).value.exited
    requires At(s, Keepalive).loc.InKeepalive? && Code(At(s, Keepalive).loc) != Act
    ensures var s' := ThreadStep(s, Keepalive, c).value;
            && KeepaliveDuty(At(s', Keepalive), s'.mem, s'.log)
            && FailureDuty(At(s', Keepalive), s'.mem, s'.log, Stage(s))
            && At(s', Keepalive).loc != Off && SameOutside(s, s')
  {
    hide Touched, Stage, Inv, ActStep;
  }

  lemma KeepaliveSendStep(s: State, c: Choice)
    requires Fits(Keepalive, At(s, Keepalive)) && Duties(s)
    requires ThreadStep(s, Keepalive, c).Some? && !ThreadStep(s, Keepalive, c).value.exited
    requires At(s, Keepalive).loc.InSend?
    ensures var s' := ThreadStep(s, Keepalive, c).value;
            && KeepaliveDuty(At(s', Keepalive), s'.mem, s'.log)
            && FailureDuty(At(s', Keepalive), s'.mem, s'.log, Stage(s))
            && At(s', Keepalive).loc != Off && SameOutside(s, s')
  {
    hide Touched, Stage;
  }

  lemma KeepaliveCancelStep(s: State, c: Choice)
    requires Inv(s) && Duties(s) && ThreadStep(s, Keepalive, c).Some? && !ThreadStep(s, Keepalive, c).value.exited
    requires At(s, Keepalive).loc.InCancel?
    ensures var s' := ThreadStep(s, Keepalive, c).value;
            && KeepaliveDuty(At(s', Keepalive), s'.mem, s'.log)
            && FailureDuty(At(s', Keepalive), s'.mem, s'.log, Stage(s))
            && At(s', Keepalive).loc != Off && SameOutside(s, s')
  {
    hide Touched, ThreadStep;
    FitsAll(s, Keepalive);
    assert s.mem.ctx == Some(s.mem.cycle) by { hide LockInv, WriteInv, ArmInv, Duties; }
    hide Inv, Stage;
    CancelStepDuty(s, Keepalive, c);
    if Touched(s.log, s.mem.cycle) {
      TouchedStays(s.log, ThreadStep(s, Keepalive, c).value.log, s.mem.cycle);
    }
  }

  lemma KeepaliveStep(s: State, c: Choice)
    requires Inv(s) && Duties(s) && ThreadStep(s, Keepalive, c).Some? && !ThreadStep(s, Keepalive, c).value.exited
    ensures Duties(ThreadStep(s, Keepalive, c).value)
  {
    hide ThreadStep, Touched, KeepaliveDuty, FailureDuty, LockInv, CycleInv, ThreadsInv, WriteInv, ArmInv, Code, Stage;
    hide ActStep, Moved;
    var s', th := ThreadStep(s, Keepalive, c).value, At(s, Keepalive);
    FitsAll(s, Keepalive);
    StepShape(s, Keepalive, c);
    MainElsewhere(s, s', Keepalive);
    PumpElsewhere(s, s', Keepalive);
    SameMainSameStage(s, s');
    if th.loc.InKeepalive? {
      if Code(th.loc) == Act {
        StepIsAct(s, Keepalive, c);
        KeepaliveActStep(s, c);
      } else {
        KeepaliveTextStep(s, c);
      }
    } else if th.loc.InSend? {
      KeepaliveSendStep(s, c);
    } else if th.loc.InCancel? {
      KeepaliveCancelStep(s, c);
    } else {
      HelpersStayOff(s, Keepalive, c);
    }
    MainDutyStays(s, s');
  }

  lemma StepIsAct(s: State, t: ThreadId, c: Choice)
    requires Code(At(s, t).loc) == Act
    ensures ThreadStep(s, t, c) == ActStep(s, t, c)
  {
    hide Code, ActStep;
  }

  lemma PumpElsewhere(s: State, s': State, t: ThreadId)
    requires Fits(t, At(s, t)) && Moved(s, s', t) && OthersStay(s, s', t) && t != Main && t != Pump
    ensures At(s', Pump) == At(s, Pump)
  {
    assert !Code(At(s, t).loc).Spawn?;
    hide Moved, Fits;
  }

  lemma KeepaliveElsewhere(s: State, s': State, t: ThreadId)
    requires Fits(t, At(s, t)) && Moved(s, s', t) && OthersStay(s, s', t) && t != Main && t != Keepalive
    ensures At(s', Keepalive) == At(s, Keepalive)
  {
    assert !Code(At(s, t).loc).Spawn?;
    hide Moved, Fits;
  }

  lemma SameMainSameStage(s: State, s': State)
    requires At(s', Main) == At(s, Main)
    ensures Stage(s') == Stage(s)
  {
  }

  lemma MainDutyStays(s: State, s': State)
    requires MainDuty(At(s, Main), s.mem, s.log) && At(s', Main) == At(s, Main) && SameOutside(s, s')
    ensures MainDuty(At(s', Main), s'.mem, s'.log)
  {
    hide Touched, At;
    if Touched(s.log, s.mem.cycle) {
      TouchedStays(s.log, s'.log, s.mem.cycle);
    }
  }

  // ---- The pump thread and the threads that stop the client -------------------------------

  lemma PumpActDuty(p: PumpLoc, mem: Memory, c: Choice)
    requires PumpAct(p, mem, c).Goes?
    ensures PumpAct(p, mem, c).mem == mem
    ensures PumpAct(p, mem, c).loc == Off ==> mem.connectionStop || mem.stop
  {
  }

  /** What a step of one of these threads does to the members the duties speak of. */
  ghost predicate OtherStepped(s: State, s': State, t: ThreadId) {
    && s'.mem.cycle == s.mem.cycle && (s.mem.stop ==> s'.mem.stop)
    && s'.mem.connectionStop == s.mem.connectionStop && s'.mem.failed == s.mem.failed
    && s.log.cancels <= s'.log.cancels
    && (t == Pump && At(s', Pump).loc == Off ==> s.mem.connectionStop || s.mem.stop)
  }

  lemma OtherActFrame(s: State, t: ThreadId, c: Choice)
    requires Fits(t, At(s, t)) && t != Main && t != Keepalive && Code(At(s, t).loc) == Act
    requires ActStep(s, t, c).Some? && !ActStep(s, t, c).value.exited
    ensures OtherStepped(s, ActStep(s, t, c).value, t)
  {
    hide PumpAct, SendAct, CancelAct, Running, Fits, Code;
    var th := At(s, t);
    match th.loc
    case InPump(p) =>
      if PumpAct(p, s.mem, c).Goes? {
        PumpActDuty(p, s.mem, c);
      }
    case InCancel(x) =>
      CancelInThread(t, th);
      CancelActDuty(th, x, s.mem, s.log, Running(s), c);
    case InSend(x) => SendInThread(t, th, x, s.mem, c);
    case Off => NotElsewhere(t, th);
    case _ => NotElsewhere(t, th);
  }

  lemma OtherTextFrame(s: State, t: ThreadId, c: Choice)
    requires Fits(t, At(s, t)) && t != Main && t != Keepalive && Code(At(s, t).loc) != Act
    requires ThreadStep(s, t, c).Some?
    ensures OtherStepped(s, ThreadStep(s, t, c).value, t)
  {
    NotElsewhere(t, At(s, t));
    hide ActStep;
  }

  lemma OtherFrame(s: State, t: ThreadId, c: Choice)
    requires Fits(t, At(s, t)) && t != Main && t != Keepalive
    requires ThreadStep(s, t, c).Some? && !ThreadStep(s, t, c).value.exited
    ensures OtherStepped(s, ThreadStep(s, t, c).value, t)
  {
    hide ThreadStep, ActStep, Code, Fits, OtherStepped, At;
    if Code(At(s, t).loc) == Act {
      StepIsAct(s, t, c);
      OtherActFrame(s, t, c);
    } else {
      OtherTextFrame(s, t, c);
    }
  }

  lemma CancelInThread(t: ThreadId, th: Thread)
    requires Fits(t, th) && (th.loc.InCancel? || th.loc.InStop?)
    ensures t != Pump
  {
  }

  lemma SendInThread(t: ThreadId, th: Thread, x: SendLoc, mem: Memory, c: Choice)
    requires Fits(t, th) && th.loc == InSend(x)
    ensures th.ret != Off && SendAct(th, x, mem, c).loc != Off
  {
  }

  lemma NotElsewhere(t: ThreadId, th: Thread)
    requires Fits(t, th) && t != Main && t != Keepalive
    ensures !th.loc.InRun? && !th.loc.InKeepalive?
  {
  }

  lemma OtherStep(s: State, t: ThreadId, c: Choice)
    requires Inv(s) && Duties(s) && t != Main && t != Keepalive
    requires ThreadStep(s, t, c).Some? && !ThreadStep(s, t, c).value.exited
    ensures Duties(ThreadStep(s, t, c).value)
  {
    hide ThreadStep, Touched, LockInv, CycleInv, ThreadsInv, WriteInv, ArmInv, Code, Stage, Moved;
    var s' := ThreadStep(s, t, c).value;
    FitsAll(s, t);
    StepShape(s, t, c);
    MainElsewhere(s, s', t);
    KeepaliveElsewhere(s, s', t);
    if t != Pump {
      PumpElsewhere(s, s', t);
    }
    SameMainSameStage(s, s');
    OtherFrame(s, t, c);
    if Touched(s.log, s.mem.cycle) {
      TouchedStays(s.log, s'.log, s.mem.cycle);
    }
    hide At;
  }

  // ---- The main thread --------------------------------------------------------------------

  /** Where the statements of RunOnce lead, and what they do to the members. */
  lemma RunActPlace(th: Thread, r: RunLoc, mem: Memory, c: Choice)
    requires RunAct(th, r, mem, c).Goes? && RunAct(th, r, mem, c).loc.InRun?
    ensures var r' := RunAct(th, r, mem, c).loc.run;
            && (LOCK_MOVE <= r' <= DESTROY_CONTEXT ==> LOCK_MOVE <= r <= DESTROY_CONTEXT)
            && (r' == CLEAR_FAILED <==> r == OUTSIDE)
            && (DECLARE_STOP < r' <= END_THREADS ==> DECLARE_STOP <= r < END_THREADS)
  {
  }

  lemma RunActMembers(th: Thread, r: RunLoc, mem: Memory, c: Choice)
    requires RunAct(th, r, mem, c).Goes? && RunAct(th, r, mem, c).loc.InRun?
    ensures var mem' := RunAct(th, r, mem, c).mem;
            && (r != OUTSIDE ==> mem'.cycle == mem.cycle)
            && mem'.failed == (mem.failed && r != CLEAR_FAILED) && mem'.stop == mem.stop
            && mem'.connectionStop == (if r == DECLARE_STOP then false else mem.connectionStop || r == END_THREADS)
  {
  }

  lemma MainOwnStep(s: State, c: Choice)
    requires Inv(s) && Duties(s) && OwnStatement(s, Main)
    requires ThreadStep(s, Main, c).Some? && !ThreadStep(s, Main, c).value.exited
    ensures Duties(ThreadStep(s, Main, c).value)
  {
    hide Touched, LockInv, CycleInv, ThreadsInv, WriteInv, ArmInv, RunAct, RunCode, Stage, ThreadStep, Moved;
    var s', th := ThreadStep(s, Main, c).value, At(s, Main);
    FitsAll(s, Main);
    StepShape(s, Main, c);
    OwnStep(s, c);
    RunActPlace(th, th.loc.run, s.mem, c);
    RunActMembers(th, th.loc.run, s.mem, c);
    OwnHelpers(th, th.loc.run, s.mem, c);
    OwnLeavesHelpers(s, s');
    HelperStretch(s);
    hide OwnStatement, OthersStay, At;
  }

  lemma OwnLeavesHelpers(s: State, s': State)
    requires OwnStatement(s, Main) && OthersStay(s, s', Main)
    ensures At(s', Keepalive) == At(s, Keepalive) && At(s', Pump) == At(s, Pump)
  {
    hide RunCode;
  }

  lemma HelperStretch(s: State)
    requires Inv(s)
    ensures At(s, Keepalive).loc != Off ==> SPAWN_KEEPALIVE < Stage(s) <= JOIN_KEEPALIVE
  {
    hide LockInv, CycleInv, WriteInv, ArmInv;
  }

  lemma RunTextDuty(r: RunLoc)
    ensures match RunCode(r)
            case Lock(_, next) => next == InRun(r + 1) && r != OUTSIDE && r + 1 != LOCK_MOVE && r != DECLARE_STOP
            case Unlock(next) => next == InRun(r + 1) && r != OUTSIDE && r + 1 != LOCK_MOVE && r != DECLARE_STOP
            case Spawn(_, _, next) => next == InRun(r + 1) && r + 1 < LOCK_MOVE && r > DECLARE_STOP
            case Join(_, next) => next == InRun(r + 1) && END_THREADS < r + 1 < LOCK_MOVE
            case Call(entry, ret) =>
              && (entry == InSend(LockWrite) || entry == InCancel(LockCancel)) && ret.InRun?
              && (ret.run == r + 1 || (r == SEND_RESPONSE && ret.run == LOOP_STOP)) && r != OUTSIDE
            case _ => true
    ensures RunCode(r).Lock? || RunCode(r).Unlock? || RunCode(r).Call? ==> r != CLEAR_FAILED && r + 1 != CLEAR_FAILED
    ensures RunCode(r).Lock? || RunCode(r).Unlock? ==> r != END_THREADS && r != DESTROY_CONTEXT
    ensures !RunCode(r).Return?
  {
  }

  lemma MainTextMem(s: State, c: Choice)
    requires At(s, Main).loc.InRun? && RunCode(At(s, Main).loc.run) != Act && ThreadStep(s, Main, c).Some?
    ensures ThreadStep(s, Main, c).value.mem == s.mem && ThreadStep(s, Main, c).value.log == s.log
  {
    hide RunCode;
  }

  lemma SpawnedStart(s: State, s': State)
    requires At(s, Main).loc.InRun? && OthersStay(s, s', Main)
    ensures var code := RunCode(At(s, Main).loc.run);
            && At(s', Keepalive) == (if code.Spawn? && code.t == Keepalive then Fresh(code.entry) else At(s, Keepalive))
            && At(s', Pump) == (if code.Spawn? && code.t == Pump then Fresh(code.entry) else At(s, Pump))
            && (code.Spawn? ==> code.entry == InKeepalive(KeepaliveConnection) || code.entry == InPump(PumpConnection))
  {
  }

  lemma MainTextStep(s: State, c: Choice)
    requires Inv(s) && Duties(s) && At(s, Main).loc.InRun? && RunCode(At(s, Main).loc.run) != Act
    requires ThreadStep(s, Main, c).Some? && !ThreadStep(s, Main, c).value.exited
    ensures Duties(ThreadStep(s, Main, c).value)
  {
    hide Touched, LockInv, CycleInv, ThreadsInv, WriteInv, ArmInv, RunCode, ThreadStep;
    var s', th := ThreadStep(s, Main, c).value, At(s, Main);
    FitsAll(s, Main);
    StepShape(s, Main, c);
    RunTextDuty(th.loc.run);
    RunTextOrder(th.loc.run);
    TextStage(s, s');
    MainTextMem(s, c);
    SpawnedStart(s, s');
    HelperStretch(s);
    hide OthersStay, Fits, Scope;
  }

  lemma MainSendStep(s: State, c: Choice)
    requires Inv(s) && Duties(s) && At(s, Main).loc.InSend?
    requires ThreadStep(s, Main, c).Some? && !ThreadStep(s, Main, c).value.exited
    ensures Duties(ThreadStep(s, Main, c).value)
  {
    hide Touched, ThreadStep, Moved, Code, LockInv, CycleInv, ThreadsInv, WriteInv, ArmInv;
    var s' := ThreadStep(s, Main, c).value;
    FitsAll(s, Main);
    StepShape(s, Main, c);
    CallKeepsStage(s, s');
    CallSpawnsNobody(s, s');
    MainSendFrame(s, c);
  }

  lemma MainSendFrame(s: State, c: Choice)
    requires Fits(Main, At(s, Main)) && At(s, Main).loc.InSend? && ThreadStep(s, Main, c).Some?
    ensures var s' := ThreadStep(s, Main, c).value;
            && s'.mem == s.mem && s'.log == s.log
            && (At(s', Main).loc.InSend? || At(s', Main).loc == InRun(REGISTER_SENT)
                || At(s', Main).loc == InRun(LOOP_STOP))
  {
  }

  lemma MainCancelStep(s: State, c: Choice)
    requires Inv(s) && Duties(s) && At(s, Main).loc.InCancel?
    requires ThreadStep(s, Main, c).Some? && !ThreadStep(s, Main, c).value.exited
    ensures Duties(ThreadStep(s, Main, c).value)
  {
    hide Touched, ThreadStep, Moved, Code;
    var s' := ThreadStep(s, Main, c).value;
    FitsAll(s, Main);
    StepShape(s, Main, c);
    assert s.mem.ctx == Some(s.mem.cycle) && Stage(s) == LOCK_MOVE by { hide LockInv, WriteInv, ArmInv, Duties; }
    CancelStepDuty(s, Main, c);
    CallKeepsStage(s, s');
    CallSpawnsNobody(s, s');
    if Touched(s.log, s.mem.cycle) {
      TouchedStays(s.log, s'.log, s.mem.cycle);
    }
    hide Inv, Stage, At, OthersStay;
  }

  lemma CallSpawnsNobody(s: State, s': State)
    requires (At(s, Main).loc.InCancel? || At(s, Main).loc.InSend?) && OthersStay(s, s', Main)
    ensures At(s', Keepalive) == At(s, Keepalive) && At(s', Pump) == At(s, Pump)
  {
  }

  lemma MainStep(s: State, c: Choice)
    requires Inv(s) && Duties(s) && ThreadStep(s, Main, c).Some? && !ThreadStep(s, Main, c).value.exited
    ensures Duties(ThreadStep(s, Main, c).value)
  {
    FitsAll(s, Main);
    hide ThreadStep, Inv, Duties, RunCode;
    if At(s, Main).loc.InRun? {
      if RunCode(At(s, Main).loc.run) == Act {
        MainOwnStep(s, c);
      } else {
        MainTextStep(s, c);
      }
    } else if At(s, Main).loc.InSend? {
      MainSendStep(s, c);
    } else {
      MainCancelStep(s, c);
    }
  }

  // ---- All schedules ----------------------------------------------------------------------

  lemma DutiesFrame(s: State, s': State)
    requires Duties(s) && s'.threads == s.threads && s'.mem == s.mem && s'.log.cancels == s.log.cancels
    ensures Duties(s')
  {
    assert forall t :: At(s', t) == At(s, t);
    assert Stage(s') == Stage(s);
    if Touched(s.log, s.mem.cycle) {
      TouchedStays(s.log, s'.log, s.mem.cycle);
    }
    hide Touched, Stage, At;
  }

  lemma StepKeepsDuties(s: State, a: Actor, c: Choice)
    requires Inv(s) && Duties(s) && Step(s, a, c).Some?
    ensures Duties(Step(s, a, c).value)
  {
    hide Inv, Duties, ThreadStep;
    match a
    case WatchdogActor(k) => DutiesFrame(s, Step(s, a, c).value);
    case ThreadActor(t) =>
      if ThreadStep(s, t, c).value.exited {
        assert ThreadStep(s, t, c).value == s.(exited := true) by { ExitIsAll(s, t, c); }
        DutiesFrame(s, s.(exited := true));
      } else if t == Main {
        MainStep(s, c);
      } else if t == Keepalive {
        KeepaliveStep(s, c);
      } else {
        OtherStep(s, t, c);
      }
  }

  lemma ExitIsAll(s: State, t: ThreadId, c: Choice)
    requires !s.exited && ThreadStep(s, t, c).Some? && ThreadStep(s, t, c).value.exited
    ensures ThreadStep(s, t, c).value == s.(exited := true)
  {
    hide RunAct, KeepaliveAct, PumpAct, SendAct, CancelAct, Code;
  }

  lemma {:induction false} ReachableDuties(sched: Schedule)
    requires Exec(sched).Some?
    ensures Inv(Exec(sched).value) && Duties(Exec(sched).value)
  {
    ReachableInv(sched);
    if sched != [] {
      var prefix := sched[..|sched| - 1];
      ReachableDuties(prefix);
      hide Step, Inv, Duties;
      StepKeepsDuties(Exec(prefix).value, sched[|sched| - 1].0, sched[|sched| - 1].1);
    }
  }

  /** In every state: if the connection has failed, TryCancel was called on its context, or the
      keepalive thread is about to call it. In particular the keepalive thread has not ended. */
  lemma FailedIsCancelled(sched: Schedule)
    requires Exec(sched).Some?
    ensures var s := Exec(sched).value;
            var k := At(s, Keepalive).loc;
            s.mem.failed && At(s, Main).loc != InRun(CLEAR_FAILED) ==>
              || (exists i :: 0 <= i < |s.log.cancels| && s.log.cancels[i].context == Some(s.mem.cycle))
              || k in {InKeepalive(KeepaliveCancel), InCancel(LockCancel), InCancel(TestCtx), InCancel(TryCancel)}
  {
    ReachableDuties(sched);
    var s := Exec(sched).value;
    FitsAll(s, Main);
    hide Inv, Exec;
  }

  /** While the main thread reads, both helper threads are there, unless a stop was requested or
      the connection has failed and was cancelled. */
  lemma ReadLoopIsGuarded(sched: Schedule)
    requires Exec(sched).Some?
    requires var s := Exec(sched).value; SPAWN_PUMP < Stage(s) <= END_THREADS && !s.mem.stop
    ensures var s := Exec(sched).value;
            At(s, Keepalive).loc == Off || At(s, Pump).loc == Off ==>
              s.mem.failed && exists i :: 0 <= i < |s.log.cancels| && s.log.cancels[i].context == Some(s.mem.cycle)
  {
    ReachableDuties(sched);
    hide Inv, Exec, Stage;
  }

  /** Once RunOnce is past the CancelStream of its cleanup, TryCancel was called on the context
      it is about to destroy. */
  lemma CleanupCancels(sched: Schedule)
    requires Exec(sched).Some?
    requires var loc := At(Exec(sched).value, Main).loc; loc.InRun? && LOCK_MOVE <= loc.run <= DESTROY_CONTEXT
    ensures var s := Exec(sched).value;
            exists i :: 0 <= i < |s.log.cancels| && s.log.cancels[i].context == Some(s.mem.cycle)
  {
    ReachableDuties(sched);
    hide Inv, Exec;
  }

  // ---- Over runs --------------------------------------------------------------------------

  /** Nobody else moves a thread that has started. */
  lemma OthersLeave(s: State, a: Actor, c: Choice, u: ThreadId)
    requires Inv(s) && Step(s, a, c).Some? && a != ThreadActor(u) && At(s, u).loc != Off
    ensures At(Step(s, a, c).value, u) == At(s, u)
  {
    hide LockInv, CycleInv, WriteInv, ArmInv, ThreadStep, Fits, Scope, ThreadsInv, Moved;
    match a
    case WatchdogActor(_) =>
    case ThreadActor(t) =>
      FitsAll(s, t);
      if ThreadStep(s, t, c).value.exited {
        ExitKeepsThreads(s, t, c);
      } else {
        StepShape(s, t, c);
        if Elsewhere(s, t, u) != At(s, u) {
          SpawnedWereOff(s, t, u);
        }
      }
  }

  /** The cycle changes only when RunOnce begins. */
  lemma CycleStays(s: State, a: Actor, c: Choice)
    requires Inv(s) && Step(s, a, c).Some? && Stage(s) != OUTSIDE
    ensures Step(s, a, c).value.mem.cycle == s.mem.cycle && s.log.cancels <= Step(s, a, c).value.log.cancels
  {
    hide LockInv, CycleInv, WriteInv, ArmInv, ThreadsInv, ThreadStep, Fits;
    match a
    case WatchdogActor(_) =>
    case ThreadActor(t) =>
      FitsAll(s, t);
      if ThreadStep(s, t, c).value.exited {
        ExitIsAll(s, t, c);
      } else if OwnStatement(s, t) {
        OwnStep(s, c);
        RunActMembers(At(s, Main), At(s, Main).loc.run, s.mem, c);
      } else {
        OtherStepsKeepCycle(s, t, c);
        CancelsGrow(s, t, c);
      }
  }

  lemma CancelsGrow(s: State, t: ThreadId, c: Choice)
    requires Fits(t, At(s, t)) && !OwnStatement(s, t) && ThreadStep(s, t, c).Some?
    ensures s.log.cancels <= ThreadStep(s, t, c).value.log.cancels
  {
    hide ActStep, Code, Fits, OwnStatement;
    if Code(At(s, t).loc) == Act {
      NotInRun(s, t);
      ActCancelsGrow(s, t, c);
    }
  }

  lemma ActCancelsGrow(s: State, t: ThreadId, c: Choice)
    requires !At(s, t).loc.InRun? && Code(At(s, t).loc) == Act && ActStep(s, t, c).Some?
    ensures s.log.cancels <= ActStep(s, t, c).value.log.cancels
  {
    hide KeepaliveAct, PumpAct, SendAct, CancelAct, Running, Code;
    var th := At(s, t);
    if th.loc.InCancel? {
      CancelActDuty(th, th.loc.cancel, s.mem, s.log, Running(s), c);
    }
  }

  /** Step `i` is the keepalive thread's, and it finds the peer silent for too long, or a
      keepalive message not sent. */
  ghost predicate DetectsFailure(sched: Schedule, i: nat)
    requires Exec(sched).Some? && i < |sched|
  {
    var s := StateAt(sched, i);
    && sched[i].0 == ThreadActor(Keepalive)
    && ((At(s, Keepalive).loc == InKeepalive(KeepaliveStop) && !s.mem.stop && sched[i].1 == First) ||
        (At(s, Keepalive).loc == InKeepalive(KeepaliveSent) && !At(s, Keepalive).ok))
  }

  /** Steps of the keepalive thread until it calls TryCancel. */
  function StepsToTry(loc: Loc): nat {
    match loc
    case InKeepalive(KeepaliveFail) => 5
    case InKeepalive(KeepaliveCancel) => 4
    case InCancel(LockCancel) => 3
    case InCancel(TestCtx) => 2
    case InCancel(TryCancel) => 1
    case _ => 0
  }

  lemma TryStep(s: State, u: ThreadId, c: Choice)
    requires At(s, u).loc == InCancel(TryCancel) && s.mem.ctx.Some? && ThreadStep(s, u, c).Some?
    ensures Touched(ThreadStep(s, u, c).value.log, s.mem.ctx.value)
  {
    CancelActDuty(At(s, u), TryCancel, s.mem, s.log, Running(s), c);
    hide Touched, CancelAct, Running;
  }

  lemma ApproachesText(s: State, c: Choice)
    requires StepsToTry(At(s, Keepalive).loc) > 1 && s.mem.ctx.Some? && ThreadStep(s, Keepalive, c).Some?
    ensures StepsToTry(At(ThreadStep(s, Keepalive, c).value, Keepalive).loc) ==
            StepsToTry(At(s, Keepalive).loc) - 1
  {
  }

  lemma LastIsTry(loc: Loc)
    ensures StepsToTry(loc) == 1 <==> loc == InCancel(TryCancel)
  {
  }

  lemma ApproachesTry(s: State, c: Choice)
    requires Inv(s) && StepsToTry(At(s, Keepalive).loc) > 0 && ThreadStep(s, Keepalive, c).Some?
    ensures var s' := ThreadStep(s, Keepalive, c).value;
            || Touched(s'.log, s.mem.cycle)
            || (StepsToTry(At(s', Keepalive).loc) == StepsToTry(At(s, Keepalive).loc) - 1 > 0)
  {
    hide ThreadStep, StepsToTry, At, Touched, LockInv, CycleInv, ThreadsInv, WriteInv, ArmInv, Stage;
    OnlyWhenStarted(s);
    CtxIsStashed(s);
    LastIsTry(At(s, Keepalive).loc);
    if At(s, Keepalive).loc == InCancel(TryCancel) {
      TryStep(s, Keepalive, c);
    } else {
      ApproachesText(s, c);
    }
  }

  lemma CtxIsStashed(s: State)
    requires Inv(s) && At(s, Keepalive).loc != Off
    ensures s.mem.ctx == Some(s.mem.cycle)
  {
    hide LockInv, WriteInv, ArmInv;
  }

  /** A failure that the keepalive thread finds is cancelled: whatever the others do, it calls
      TryCancel on the context of this very cycle with at most its fifth step from there. */
  lemma {:induction false} DetectedIsCancelled(sched: Schedule, i: nat, j: nat)
    requires Exec(sched).Some? && i < j <= |sched| && DetectsFailure(sched, i) && !StateAt(sched, j).exited
    ensures || Touched(StateAt(sched, j).log, StateAt(sched, i).mem.cycle)
            || (StateAt(sched, j).mem.cycle == StateAt(sched, i).mem.cycle
                && OwnSteps(sched, i + 1, j, Keepalive) + StepsToTry(At(StateAt(sched, j), Keepalive).loc) == 5
                && StepsToTry(At(StateAt(sched, j), Keepalive).loc) > 0)
  {
    hide Inv, Exec, StateAt, Step, Touched, StepsToTry, At;
    StateAtStep(sched, j - 1);
    NotExitedBefore(sched, j - 1);
    if j == i + 1 {
      DetectionStep(sched, i);
    } else {
      DetectedIsCancelled(sched, i, j - 1);
      DetectedStep(sched, i, j - 1);
    }
  }

  lemma NotExitedBefore(sched: Schedule, i: nat)
    requires Exec(sched).Some? && i < |sched|
    ensures !StateAt(sched, i).exited
  {
    hide Inv, StateAt, Exec, ThreadStep, WatchdogStep;
    StateAtStep(sched, i);
  }

  lemma DetectionStep(sched: Schedule, i: nat)
    requires Exec(sched).Some? && i < |sched| && DetectsFailure(sched, i)
    ensures StateAt(sched, i + 1).mem.cycle == StateAt(sched, i).mem.cycle
    ensures StepsToTry(At(StateAt(sched, i + 1), Keepalive).loc) == 5
  {
    hide StateAt, Exec;
    StateAtStep(sched, i);
    hide Inv;
  }

  lemma DetectedStep(sched: Schedule, i: nat, j: nat)
    requires Exec(sched).Some? && i < j < |sched|
    requires || Touched(StateAt(sched, j).log, StateAt(sched, i).mem.cycle)
             || (StateAt(sched, j).mem.cycle == StateAt(sched, i).mem.cycle
                 && StepsToTry(At(StateAt(sched, j), Keepalive).loc) > 0)
    requires !StateAt(sched, j + 1).exited
    ensures Touched(StateAt(sched, j).log, StateAt(sched, i).mem.cycle) ==>
              Touched(StateAt(sched, j + 1).log, StateAt(sched, i).mem.cycle)
    ensures || Touched(StateAt(sched, j + 1).log, StateAt(sched, i).mem.cycle)
            || (StateAt(sched, j + 1).mem.cycle == StateAt(sched, i).mem.cycle
                && StepsToTry(At(StateAt(sched, j + 1), Keepalive).loc) ==
                   StepsToTry(At(StateAt(sched, j), Keepalive).loc)
                   - (if sched[j].0 == ThreadActor(Keepalive) then 1 else 0)
                && StepsToTry(At(StateAt(sched, j + 1), Keepalive).loc) > 0)
  {
    hide StateAt, Exec, Touched, StepsToTry, LockInv, CycleInv, ThreadsInv, WriteInv, ArmInv, ThreadStep;
    StateAtStep(sched, j);
    var s, a, c := StateAt(sched, j), sched[j].0, sched[j].1;
    AllCancelsGrow(s, a, c);
    if Touched(s.log, StateAt(sched, i).mem.cycle) {
      TouchedStays(s.log, StateAt(sched, j + 1).log, StateAt(sched, i).mem.cycle);
    } else {
      OnlyWhenStarted(s);
      HelperStretch(s);
      CycleStays(s, a, c);
      if a == ThreadActor(Keepalive) {
        ApproachesTry(s, c);
      } else {
        OthersLeave(s, a, c, Keepalive);
      }
    }
  }

  lemma OnlyWhenStarted(s: State)
    requires StepsToTry(At(s, Keepalive).loc) > 0
    ensures At(s, Keepalive).loc != Off
  {
  }

  lemma AllCancelsGrow(s: State, a: Actor, c: Choice)
    requires Inv(s) && Step(s, a, c).Some?
    ensures s.log.cancels <= Step(s, a, c).value.log.cancels
  {
    hide LockInv, CycleInv, WriteInv, ArmInv, ThreadsInv, ThreadStep, Fits;
    match a
    case WatchdogActor(_) =>
    case ThreadActor(t) =>
      FitsAll(s, t);
      if ThreadStep(s, t, c).value.exited {
        ExitIsAll(s, t, c);
      } else if OwnStatement(s, t) {
        OwnStep(s, c);
      } else {
        CancelsGrow(s, t, c);
      }
  }

  // ---- Stop -------------------------------------------------------------------------------

  /** Step `i` is that of thread `u` testing ctx_ in CancelStream. */
  ghost predicate TestsCtx(sched: Schedule, i: nat, u: ThreadId)
    requires Exec(sched).Some? && i < |sched|
  {
    sched[i].0 == ThreadActor(u) && At(StateAt(sched, i), u).loc == InCancel(TestCtx)
  }

  /** Whoever tests ctx_ and finds a context calls TryCancel on it: it is the only thing left to
      do for that thread, and the context stays stashed until then. */
  lemma {:induction false} TestedIsCancelled(sched: Schedule, i: nat, j: nat, u: ThreadId)
    requires Exec(sched).Some? && i < j <= |sched| && TestsCtx(sched, i, u) && StateAt(sched, i).mem.ctx.Some?
    ensures var ctx := StateAt(sched, i).mem.ctx;
            || Touched(StateAt(sched, j).log, ctx.value)
            || (At(StateAt(sched, j), u).loc == InCancel(TryCancel) && StateAt(sched, j).mem.ctx == ctx)
  {
    hide Exec, StateAt, Step, Touched, At, Inv;
    StateAtStep(sched, j - 1);
    if j == i + 1 {
      TestStep(StateAt(sched, i), u, sched[i].1);
      hide TestsCtx;
    } else {
      TestedIsCancelled(sched, i, j - 1, u);
      TestedStep(StateAt(sched, j - 1), sched[j - 1].0, sched[j - 1].1, u, StateAt(sched, i).mem.ctx.value);
    }
  }

  lemma TestStep(s: State, u: ThreadId, c: Choice)
    requires At(s, u).loc == InCancel(TestCtx) && s.mem.ctx.Some? && Step(s, ThreadActor(u), c).Some?
    ensures var s' := Step(s, ThreadActor(u), c).value;
            At(s', u).loc == InCancel(TryCancel) && s'.mem.ctx == s.mem.ctx
  {
  }

  lemma TestedStep(s: State, a: Actor, c: Choice, u: ThreadId, cycle: nat)
    requires Inv(s) && Step(s, a, c).Some? && Inv(Step(s, a, c).value)
    requires Touched(s.log, cycle) || (At(s, u).loc == InCancel(TryCancel) && s.mem.ctx == Some(cycle))
    ensures var s' := Step(s, a, c).value;
            Touched(s'.log, cycle) || (At(s', u).loc == InCancel(TryCancel) && s'.mem.ctx == Some(cycle))
  {
    hide Touched, ThreadStep, LockInv, CycleInv, ThreadsInv, WriteInv, ArmInv;
    var s' := Step(s, a, c).value;
    if Touched(s.log, cycle) {
      AllCancelsGrow(s, a, c);
      TouchedStays(s.log, s'.log, cycle);
    } else if a == ThreadActor(u) {
      TryStep(s, u, c);
    } else {
      OthersLeave(s, a, c, u);
      TryingKeepsCtx(s, u);
      TryingKeepsCtx(s', u);
      CycleStays(s, a, c);
    }
  }

  lemma TryingKeepsCtx(s: State, u: ThreadId)
    requires Inv(s) && At(s, u).loc == InCancel(TryCancel)
    ensures Stage(s) != OUTSIDE && s.mem.ctx == Some(s.mem.cycle)
  {
    assert ArmPart(At(s, u), s.mem, s.log) by { assert ArmInv(s); }
    hide LockInv, WriteInv, ThreadsInv, ArmInv;
  }

  /** A thread that has requested a stop has not tested ctx_ yet, or does so at step `b`. */
  lemma {:induction false} StopTests(sched: Schedule, i: nat, j: nat, u: ThreadId) returns (b: nat)
    requires Exec(sched).Some? && i < j <= |sched| && StopsAt(sched, i) && sched[i].0 == ThreadActor(u)
    ensures (i < b < j && TestsCtx(sched, b, u)) ||
            At(StateAt(sched, j), u).loc in {InStop, InCancel(LockCancel), InCancel(TestCtx)}
  {
    hide Exec, StateAt, Step, At, Inv;
    StateAtStep(sched, j - 1);
    b := i;
    if j == i + 1 {
      hide StopsAt;
      assert At(StateAt(sched, i), u).loc == Off && u.Stopper? by { assert StopsAt(sched, i); StopsMeans(sched, i); }
      StopBegins(StateAt(sched, i), u, sched[i].1);
    } else {
      b := StopTests(sched, i, j - 1, u);
      if !(i < b < j - 1 && TestsCtx(sched, b, u)) {
        var s, a, c := StateAt(sched, j - 1), sched[j - 1].0, sched[j - 1].1;
        if a == ThreadActor(u) {
          if At(s, u).loc == InCancel(TestCtx) {
            b := j - 1;
          } else {
            StopGoesOn(s, u, c);
          }
        } else {
          OthersLeave(s, a, c, u);
        }
      }
    }
  }

  lemma StopsMeans(sched: Schedule, i: nat)
    requires Exec(sched).Some? && i < |sched| && StopsAt(sched, i)
    ensures sched[i].0.ThreadActor? && sched[i].0.t.Stopper? && At(StateAt(sched, i), sched[i].0.t).loc == Off
  {
  }

  lemma StopBegins(s: State, u: ThreadId, c: Choice)
    requires u.Stopper? && At(s, u).loc == Off && Step(s, ThreadActor(u), c).Some?
    ensures At(Step(s, ThreadActor(u), c).value, u).loc == InStop && Step(s, ThreadActor(u), c).value.mem.stop
  {
  }

  lemma StopGoesOn(s: State, u: ThreadId, c: Choice)
    requires At(s, u).loc == InStop || At(s, u).loc == InCancel(LockCancel)
    requires Step(s, ThreadActor(u), c).Some?
    ensures At(Step(s, ThreadActor(u), c).value, u).loc in {InCancel(LockCancel), InCancel(TestCtx)}
  {
  }

  /** When Stop has returned, its thread has tested ctx_ since it requested the stop; and if it
      found a context, TryCancel was called on that context. */
  lemma StopCancels(sched: Schedule, i: nat, j: nat, u: ThreadId) returns (b: nat)
    requires Exec(sched).Some? && i < j <= |sched| && StopsAt(sched, i) && sched[i].0 == ThreadActor(u)
    requires At(StateAt(sched, j), u).loc == Off
    ensures i < b < j && TestsCtx(sched, b, u)
    ensures StateAt(sched, b).mem.ctx.Some? ==>
              var log := StateAt(sched, j).log;
              exists k :: 0 <= k < |log.cancels| && log.cancels[k].context == StateAt(sched, b).mem.ctx
  {
    hide Exec, StateAt, At, TestsCtx, StopsAt;
    b := StopTests(sched, i, j, u);
    if StateAt(sched, b).mem.ctx.Some? {
      TestedIsCancelled(sched, b, j, u);
    }
  }

  // ---- The teardown flag ------------------------------------------------------------------

  /** The flag that lets only one watchdog start is set only once TryCancel was called in the
      cycle: whoever is past that call in CancelStream has made it. */
  ghost predicate FlagInv(s: State) {
    && (forall t :: InArm(At(s, t)) && At(s, t).loc != InCancel(TryCancel) ==> Touched(s.log, s.mem.cycle))
    && (Stage(s) > CLEAR_ARMED && s.mem.armed ==> Touched(s.log, s.mem.cycle))
  }

  lemma RunActFlag(th: Thread, r: RunLoc, mem: Memory, c: Choice)
    requires RunAct(th, r, mem, c).Goes? && RunAct(th, r, mem, c).loc.InRun?
    ensures var r', mem' := RunAct(th, r, mem, c).loc.run, RunAct(th, r, mem, c).mem;
            && (r' > CLEAR_ARMED && mem'.armed ==> r > CLEAR_ARMED && mem.armed)
            && (r != OUTSIDE ==> mem'.cycle == mem.cycle) && (r == OUTSIDE ==> r' <= CLEAR_ARMED)
  {
  }

  lemma OwnKeepsFlag(s: State, c: Choice)
    requires Inv(s) && FlagInv(s) && OwnStatement(s, Main)
    requires ThreadStep(s, Main, c).Some? && !ThreadStep(s, Main, c).value.exited
    requires Inv(ThreadStep(s, Main, c).value)
    ensures FlagInv(ThreadStep(s, Main, c).value)
  {
    hide ThreadStep, Touched, RunAct, RunCode, LockInv, CycleInv, ThreadsInv, WriteInv, ArmInv, Stage, Moved, At;
    var s' := ThreadStep(s, Main, c).value;
    FitsAll(s, Main);
    StepShape(s, Main, c);
    OwnStep(s, c);
    RunActFlag(At(s, Main), At(s, Main).loc.run, s.mem, c);
    if Touched(s.log, s.mem.cycle) {
      TouchedStays(s.log, s'.log, s.mem.cycle);
    }
    forall t | InArm(At(s', t)) && At(s', t).loc != InCancel(TryCancel)
      ensures Touched(s'.log, s'.mem.cycle)
    {
      OwnMovesNoCancel(s, s', t);
      ArmedMeansStashed(s', t);
      assert At(s', t) == At(s, t) && Touched(s.log, s.mem.cycle);
    }
  }

  lemma OwnMovesNoCancel(s: State, s': State, t: ThreadId)
    requires OwnStatement(s, Main) && OthersStay(s, s', Main) && At(s', Main).loc.InRun? && InArm(At(s', t))
    ensures At(s', t) == At(s, t)
  {
    hide RunCode, At;
  }

  /** Whoever is past the test in CancelStream keeps the main thread in mid-cycle. */
  lemma ArmedMeansStashed(s: State, t: ThreadId)
    requires Inv(s) && InArm(At(s, t))
    ensures s.mem.ctx == Some(s.mem.cycle) && Stage(s) > CLEAR_ARMED
  {
    assert ArmPart(At(s, t), s.mem, s.log) by { assert ArmInv(s); }
    hide LockInv, WriteInv, ThreadsInv, ArmInv;
  }

  lemma QuietKeepsFlag(s: State, t: ThreadId, c: Choice)
    requires Inv(s) && FlagInv(s) && !OwnStatement(s, t) && !CancelStatement(At(s, t))
    requires ThreadStep(s, t, c).Some? && !ThreadStep(s, t, c).value.exited
    ensures FlagInv(ThreadStep(s, t, c).value)
  {
    hide ThreadStep, Touched, LockInv, CycleInv, ThreadsInv, WriteInv, ArmInv, Stage, Moved, OwnStatement;
    hide CancelStatement, Fits, SameStretch;
    var s' := ThreadStep(s, t, c).value;
    FitsAll(s, t);
    StepShape(s, t, c);
    OtherStepsKeepArm(s, t, c);
    QuietIsLate(s, s', t);
    forall u | InArm(At(s', u)) && At(s', u).loc != InCancel(TryCancel)
      ensures Touched(s'.log, s'.mem.cycle)
    {
      assert u != t && At(s', u) == At(s, u);
    }
  }

  lemma TextIsLate(r: RunLoc)
    ensures RunCode(r) != Act ==> r > CLEAR_ARMED
  {
  }

  lemma QuietIsLate(s: State, s': State, t: ThreadId)
    requires Fits(t, At(s, t)) && !OwnStatement(s, t) && Moved(s, s', t) && OthersStay(s, s', t)
    ensures Stage(s') > CLEAR_ARMED ==> Stage(s) > CLEAR_ARMED
  {
    hide Moved, Fits, RunCode;
    if t == Main {
      if At(s, t).loc.InRun? {
        TextIsLate(At(s, t).loc.run);
      } else {
        CallKeepsStage(s, s');
      }
    } else {
      MainElsewhere(s, s', t);
    }
  }

  lemma CancelKeepsFlag(s: State, t: ThreadId, c: Choice)
    requires Inv(s) && FlagInv(s) && CancelStatement(At(s, t))
    requires ThreadStep(s, t, c).Some? && !ThreadStep(s, t, c).value.exited
    ensures FlagInv(ThreadStep(s, t, c).value)
  {
    hide ThreadStep, ActStep, Touched, LockInv, CycleInv, ThreadsInv, WriteInv, ArmInv, Stage, Moved, Fits, Code;
    var s', th := ThreadStep(s, t, c).value, At(s, t);
    FitsAll(s, t);
    StepShape(s, t, c);
    StepIsAct(s, t, c);
    CancelFlag(s, t, c);
    QuietStage(s, s', t);
    if Touched(s.log, s.mem.cycle) {
      TouchedStays(s.log, s'.log, s.mem.cycle);
    }
    if InArm(th) {
      ArmedMeansStashed(s, t);
    }
    forall u | InArm(At(s', u)) && At(s', u).loc != InCancel(TryCancel)
      ensures Touched(s'.log, s'.mem.cycle)
    {
      if u != t {
        CancelSpawnsNone(s, s', t, u);
      }
    }
  }

  lemma CancelSpawnsNone(s: State, s': State, t: ThreadId, u: ThreadId)
    requires CancelStatement(At(s, t)) && OthersStay(s, s', t) && u != t
    ensures At(s', u) == At(s, u)
  {
  }

  lemma QuietStage(s: State, s': State, t: ThreadId)
    requires Fits(t, At(s, t)) && CancelStatement(At(s, t)) && Moved(s, s', t) && OthersStay(s, s', t)
    ensures Stage(s') == Stage(s)
  {
    hide Moved, Fits;
    if t == Main {
      CallKeepsStage(s, s');
    } else {
      MainElsewhere(s, s', t);
    }
  }

  /** What a statement of CancelStream does to the flag, the log and the thread. */
  lemma CancelFlag(s: State, t: ThreadId, c: Choice)
    requires CancelStatement(At(s, t)) && ActStep(s, t, c).Some?
    ensures var s', th := ActStep(s, t, c).value, At(s, t);
            && s'.mem.cycle == s.mem.cycle && s.log.cancels <= s'.log.cancels
            && (s'.mem.armed ==> s.mem.armed || (InArm(th) && th.loc != InCancel(TryCancel)))
            && (InArm(At(s', t)) && At(s', t).loc != InCancel(TryCancel) ==> InArm(th))
            && (th.loc == InCancel(TryCancel) && s.mem.ctx.Some? ==> Touched(s'.log, s.mem.ctx.value))
  {
    hide Touched, Running, CancelAct;
    var th := At(s, t);
    CancelActDuty(th, th.loc.cancel, s.mem, s.log, Running(s), c);
    CancelActArmed(th, th.loc.cancel, s.mem, s.log, Running(s), c);
  }

  lemma CancelActArmed(th: Thread, x: CancelLoc, mem: Memory, log: Log, running: bool, c: Choice)
    requires th.loc == InCancel(x) && Code(th.loc) == Act
    ensures var (th', mem', _) := CancelAct(th, x, mem, log, running, c);
            && (mem'.armed ==> mem.armed || x == ExchangeArmed)
            && (InArm(th') && th'.loc != InCancel(TryCancel) ==> InArm(th))
  {
  }

  lemma StepKeepsFlag(s: State, a: Actor, c: Choice)
    requires Inv(s) && FlagInv(s) && Step(s, a, c).Some? && Inv(Step(s, a, c).value)
    ensures FlagInv(Step(s, a, c).value)
  {
    hide Inv, FlagInv, ThreadStep;
    match a
    case WatchdogActor(k) => FlagFrame(s, Step(s, a, c).value);
    case ThreadActor(t) =>
      if ThreadStep(s, t, c).value.exited {
        ExitIsAll(s, t, c);
        FlagFrame(s, s.(exited := true));
      } else if OwnStatement(s, t) {
        OwnKeepsFlag(s, c);
      } else if CancelStatement(At(s, t)) {
        CancelKeepsFlag(s, t, c);
      } else {
        QuietKeepsFlag(s, t, c);
      }
  }

  lemma FlagFrame(s: State, s': State)
    requires FlagInv(s) && s'.threads == s.threads && s'.mem == s.mem && s'.log.cancels == s.log.cancels
    ensures FlagInv(s')
  {
    assert forall t :: At(s', t) == At(s, t);
    assert Stage(s') == Stage(s);
    if Touched(s.log, s.mem.cycle) {
      TouchedStays(s.log, s'.log, s.mem.cycle);
    }
    hide Touched, Stage, At;
  }

  lemma {:induction false} ReachableFlag(sched: Schedule)
    requires Exec(sched).Some?
    ensures FlagInv(Exec(sched).value)
  {
    ReachableInv(sched);
    if sched != [] {
      var prefix := sched[..|sched| - 1];
      ReachableFlag(prefix);
      ReachableInv(prefix);
      hide Step, Inv, FlagInv;
      StepKeepsFlag(Exec(prefix).value, sched[|sched| - 1].0, sched[|sched| - 1].1);
    }
  }

  /** In every cycle the flag is clear until TryCancel was called in that very cycle; so the
      first thread to cancel it finds the flag clear, and is the one to start a watchdog. */
  lemma FlagMeansCancelled(sched: Schedule)
    requires Exec(sched).Some?
    ensures var s := Exec(sched).value;
            Stage(s) > CLEAR_ARMED && s.mem.armed ==>
              exists i :: 0 <= i < |s.log.cancels| && s.log.cancels[i].context == Some(s.mem.cycle)
  {
    ReachableFlag(sched);
    hide Exec, Stage;
  }
}
