/** How the control client comes to an end: the main thread does not read on after a failure or
    a request to stop, the keepalive thread ends when told to, and no new connection begins. */
module ControlEnding {
  import opened Common
  import opened ControlProgram
  import opened ControlInvariant
  import opened ControlLocks
  import opened ControlWatchdog
  import opened ControlCancels

  // ---- The read loop ----------------------------------------------------------------------

  lemma ReadText(th: Thread, r: RunLoc, mem: Memory, c: Choice)
    requires RunAct(th, r, mem, c).Goes?
    ensures RunAct(th, r, mem, c).loc == InRun(LOOP_READ) ==> r == LOOP_FAILED && !mem.failed
    ensures RunAct(th, r, mem, c).loc == InRun(LOOP_FAILED) ==> r == LOOP_STOP && !mem.stop
  {
  }

  lemma LeadsToRead(s: State, c: Choice)
    requires Fits(Main, At(s, Main)) && ThreadStep(s, Main, c).Some? && !ThreadStep(s, Main, c).value.exited
    ensures var loc, loc' := At(s, Main).loc, At(ThreadStep(s, Main, c).value, Main).loc;
            && (loc' == InRun(LOOP_READ) ==> loc == InRun(LOOP_FAILED) && !s.mem.failed)
            && (loc' == InRun(LOOP_FAILED) ==> loc == InRun(LOOP_STOP) && !s.mem.stop)
  {
    hide ThreadStep, RunAct, RunCode, Scope;
    StepShape(s, Main, c);
    if OwnStatement(s, Main) {
      OwnStep(s, c);
      ReadText(At(s, Main), At(s, Main).loc.run, s.mem, c);
    } else if At(s, Main).loc.InRun? {
      RunTextOrder(At(s, Main).loc.run);
      RunTextDuty(At(s, Main).loc.run);
    }
  }

  /** The main thread is at `loc` before step `j`; step `i` is its latest one before that. */
  ghost predicate CameFrom(sched: Schedule, i: nat, j: nat, from: Loc)
    requires Exec(sched).Some? && j <= |sched|
  {
    && i < j && sched[i].0 == ThreadActor(Main) && At(StateAt(sched, i), Main).loc == from
    && forall k :: i < k < j ==> sched[k].0 != ThreadActor(Main)
  }

  lemma {:induction false} BeforeTest(sched: Schedule, j: nat, atRead: bool) returns (i: nat)
    requires Exec(sched).Some? && j <= |sched| && !StateAt(sched, j).exited
    requires At(StateAt(sched, j), Main).loc == InRun(if atRead then LOOP_READ else LOOP_FAILED)
    ensures CameFrom(sched, i, j, InRun(if atRead then LOOP_FAILED else LOOP_STOP))
    ensures if atRead then !StateAt(sched, i).mem.failed else !StateAt(sched, i).mem.stop
  {
    hide Exec, StateAt, Inv, ThreadStep;
    if j == 0 {
      StartsOutside(sched);
    } else {
      StateAtStep(sched, j - 1);
      NotExitedBefore(sched, j - 1);
      var s, a, c := StateAt(sched, j - 1), sched[j - 1].0, sched[j - 1].1;
      MainIsOn(s);
      if a == ThreadActor(Main) {
        LeadsToRead(s, c);
        i := j - 1;
      } else {
        OthersLeave(s, a, c, Main);
        i := BeforeTest(sched, j - 1, atRead);
      }
    }
  }

  lemma MainIsOn(s: State)
    requires Inv(s)
    ensures Fits(Main, At(s, Main)) && At(s, Main).loc != Off
  {
    FitsAll(s, Main);
    hide Inv;
  }

  lemma StartsOutside(sched: Schedule)
    requires Exec(sched).Some?
    ensures At(StateAt(sched, 0), Main).loc == InRun(OUTSIDE)
  {
    assert sched[..0] == [];
  }

  /** Before every Read the main thread has looked for a stop and for a failure since the Read
      before it, and found neither. So it reads at most once more after either. */
  lemma ReadFollowsTests(sched: Schedule, j: nat) returns (test: nat, look: nat)
    requires Exec(sched).Some? && j <= |sched| && !StateAt(sched, j).exited
    requires At(StateAt(sched, j), Main).loc == InRun(LOOP_READ)
    ensures CameFrom(sched, look, j, InRun(LOOP_FAILED)) && !StateAt(sched, look).mem.failed
    ensures CameFrom(sched, test, look, InRun(LOOP_STOP)) && !StateAt(sched, test).mem.stop
  {
    hide Exec, StateAt;
    look := BeforeTest(sched, j, true);
    NotExitedBefore(sched, look);
    test := BeforeTest(sched, look, false);
  }

  // ---- The end of the keepalive thread ----------------------------------------------------

  /** Steps of the keepalive thread until it ends, once the connection is to stop. */
  function StepsToEnd(loc: Loc): nat {
    match loc
    case InKeepalive(KeepaliveConnection) => 1
    case InKeepalive(KeepaliveEnd) => 1
    case InCancel(CancelReturns) => 2
    case InCancel(UnlockCancel) => 3
    case InCancel(StartWatchdog) => 4
    case InCancel(LoadGeneration) => 5
    case InCancel(ReadEnvironment) => 6
    case InCancel(ExchangeArmed) => 7
    case InCancel(TryCancel) => 8
    case InCancel(TestCtx) => 9
    case InCancel(LockCancel) => 10
    case InKeepalive(KeepaliveCancel) => 11
    case InKeepalive(KeepaliveFail) => 12
    case InKeepalive(KeepaliveSent) => 13
    case InSend(SendReturns) => 14
    case InSend(UnlockWrite) => 15
    case InSend(Writing) => 16
    case InSend(StartWrite) => 17
    case InSend(TestStream) => 18
    case InSend(LockWrite) => 19
    case InKeepalive(KeepaliveSend) => 20
    case InKeepalive(KeepaliveStop) => 21
    case _ => 0
  }

  lemma KeepaliveActNearsEnd(th: Thread, k: KeepaliveLoc, mem: Memory, c: Choice)
    requires KeepaliveAct(th, k, mem, c).Goes? && mem.connectionStop
    ensures StepsToEnd(KeepaliveAct(th, k, mem, c).loc) < StepsToEnd(InKeepalive(k))
  {
  }

  lemma SendNearsEnd(th: Thread, x: SendLoc, mem: Memory, c: Choice)
    requires th.loc == InSend(x) && Code(th.loc) == Act
    ensures 0 < StepsToEnd(SendAct(th, x, mem, c).loc) < StepsToEnd(th.loc)
  {
  }

  lemma CancelNearsEnd(th: Thread, x: CancelLoc, mem: Memory, log: Log, running: bool, c: Choice)
    requires th.loc == InCancel(x) && Code(th.loc) == Act
    ensures 0 < StepsToEnd(CancelAct(th, x, mem, log, running, c).0.loc) < StepsToEnd(th.loc)
  {
  }

  lemma TextNearsEnd(th: Thread)
    requires Fits(Keepalive, th)
    ensures match Code(th.loc)
            case Lock(_, next) => StepsToEnd(next) < StepsToEnd(th.loc)
            case Unlock(next) => StepsToEnd(next) < StepsToEnd(th.loc)
            case Call(entry, _) => StepsToEnd(entry) < StepsToEnd(th.loc)
            case Return => StepsToEnd(th.ret) < StepsToEnd(th.loc)
            case Spawn(_, _, _) => false
            case Join(_, _) => false
            case Act => th.loc == Off || th.loc.InKeepalive? || th.loc.InSend? || th.loc.InCancel?
  {
  }

  lemma ActNearsEnd(s: State, c: Choice)
    requires Fits(Keepalive, At(s, Keepalive)) && s.mem.connectionStop && Code(At(s, Keepalive).loc) == Act
    requires ActStep(s, Keepalive, c).Some? && !ActStep(s, Keepalive, c).value.exited
    ensures StepsToEnd(At(ActStep(s, Keepalive, c).value, Keepalive).loc) < StepsToEnd(At(s, Keepalive).loc)
  {
    hide KeepaliveAct, SendAct, CancelAct, StepsToEnd, Running, Fits, Code;
    var th := At(s, Keepalive);
    TextNearsEnd(th);
    match th.loc
    case InKeepalive(k) =>
      if KeepaliveAct(th, k, s.mem, c).Goes? {
        KeepaliveActNearsEnd(th, k, s.mem, c);
      }
    case InSend(x) => SendNearsEnd(th, x, s.mem, c);
    case InCancel(x) => CancelNearsEnd(th, x, s.mem, s.log, Running(s), c);
    case _ =>
  }

  lemma NearsEnd(s: State, c: Choice)
    requires Fits(Keepalive, At(s, Keepalive)) && s.mem.connectionStop
    requires ThreadStep(s, Keepalive, c).Some? && !ThreadStep(s, Keepalive, c).value.exited
    ensures StepsToEnd(At(ThreadStep(s, Keepalive, c).value, Keepalive).loc) < StepsToEnd(At(s, Keepalive).loc)
  {
    hide ActStep, Code, StepsToEnd, Fits;
    TextNearsEnd(At(s, Keepalive));
    if Code(At(s, Keepalive).loc) == Act {
      ActNearsEnd(s, c);
    }
  }

  lemma ActKeepsFlag(s: State, t: ThreadId, c: Choice)
    requires !At(s, t).loc.InRun? && Code(At(s, t).loc) == Act && s.mem.connectionStop
    requires ActStep(s, t, c).Some? && !ActStep(s, t, c).value.exited
    ensures ActStep(s, t, c).value.mem.connectionStop
  {
    hide KeepaliveAct, PumpAct, SendAct, CancelAct, Running, Code;
    var th := At(s, t);
    match th.loc
    case InKeepalive(k) =>
      if KeepaliveAct(th, k, s.mem, c).Goes? {
        KeepaliveActDuty(th, k, s.mem, c);
      }
    case InPump(p) =>
      if PumpAct(p, s.mem, c).Goes? {
        PumpActDuty(p, s.mem, c);
      }
    case InCancel(x) => CancelActDuty(th, x, s.mem, s.log, Running(s), c);
    case _ =>
  }

  /** The order to stop stands as long as the keepalive thread is there. */
  lemma FlagStays(s: State, a: Actor, c: Choice)
    requires Inv(s) && Step(s, a, c).Some? && s.mem.connectionStop && At(s, Keepalive).loc != Off
    ensures Step(s, a, c).value.mem.connectionStop
  {
    hide LockInv, CycleInv, WriteInv, ArmInv, ThreadsInv, ActStep, Code, Fits, RunAct;
    match a
    case WatchdogActor(_) =>
    case ThreadActor(t) =>
      FitsAll(s, t);
      HelperStretch(s);
      if ThreadStep(s, t, c).value.exited {
        ExitIsAll(s, t, c);
      } else if OwnStatement(s, t) {
        OwnStep(s, c);
        RunActMembers(At(s, Main), At(s, Main).loc.run, s.mem, c);
      } else if Code(At(s, t).loc) == Act {
        NotInRun(s, t);
        ActKeepsFlag(s, t, c);
      }
  }

  /** Once the connection is to stop, the keepalive thread ends with at most its twenty-first
      step, whatever the others do and wherever it was; so the main thread's join returns. */
  lemma {:induction false} KeepaliveEndsSoon(sched: Schedule, i: nat, j: nat)
    requires Exec(sched).Some? && i <= j <= |sched| && StateAt(sched, i).mem.connectionStop
    requires forall k :: i <= k <= j ==> At(StateAt(sched, k), Keepalive).loc != Off
    requires !StateAt(sched, j).exited
    ensures StateAt(sched, j).mem.connectionStop
    ensures OwnSteps(sched, i, j, Keepalive) + StepsToEnd(At(StateAt(sched, j), Keepalive).loc)
            <= StepsToEnd(At(StateAt(sched, i), Keepalive).loc)
    ensures OwnSteps(sched, i, j, Keepalive) <= 21
  {
    hide Exec, StateAt, Inv, ThreadStep, StepsToEnd, At, Step;
    if i < j {
      StateAtStep(sched, j - 1);
      NotExitedBefore(sched, j - 1);
      KeepaliveEndsSoon(sched, i, j - 1);
      EndStep(StateAt(sched, j - 1), sched[j - 1].0, sched[j - 1].1);
    }
    AtMostTwentyOne(At(StateAt(sched, i), Keepalive).loc);
  }

  lemma AtMostTwentyOne(loc: Loc)
    ensures StepsToEnd(loc) <= 21
  {
  }

  lemma EndStep(s: State, a: Actor, c: Choice)
    requires Inv(s) && Step(s, a, c).Some? && s.mem.connectionStop && At(s, Keepalive).loc != Off
    requires !Step(s, a, c).value.exited
    ensures var s' := Step(s, a, c).value;
            && s'.mem.connectionStop
            && (if a == ThreadActor(Keepalive)
                then StepsToEnd(At(s', Keepalive).loc) < StepsToEnd(At(s, Keepalive).loc)
                else At(s', Keepalive) == At(s, Keepalive))
  {
    FlagStays(s, a, c);
    if a == ThreadActor(Keepalive) {
      FitsAll(s, Keepalive);
      NearsEnd(s, c);
    } else {
      OthersLeave(s, a, c, Keepalive);
    }
    hide Inv, ThreadStep, StepsToEnd, At;
  }

  // ---- No connection after a stop ---------------------------------------------------------

  lemma OutsideWaits(th: Thread, mem: Memory, c: Choice)
    ensures mem.stop ==> !RunAct(th, OUTSIDE, mem, c).Goes?
  {
  }

  lemma StepAfterStop(s: State, a: Actor, c: Choice)
    requires Inv(s) && Step(s, a, c).Some? && s.mem.stop
    ensures Step(s, a, c).value.mem.cycle == s.mem.cycle && Step(s, a, c).value.mem.stop
  {
    hide LockInv, CycleInv, WriteInv, ArmInv, ThreadsInv, ThreadStep, Fits, RunAct;
    match a
    case WatchdogActor(_) =>
    case ThreadActor(t) =>
      FitsAll(s, t);
      if ThreadStep(s, t, c).value.exited {
        ExitIsAll(s, t, c);
      } else if OwnStatement(s, t) {
        OwnStep(s, c);
        OutsideWaits(At(s, Main), s.mem, c);
        RunActMembers(At(s, Main), At(s, Main).loc.run, s.mem, c);
      } else {
        OtherStepsKeepCycle(s, t, c);
        ThreadCounts(s, t, c);
      }
  }

  /** From a request to stop on, no further RunOnce begins. */
  lemma {:induction false} NoCycleAfterStop(sched: Schedule, i: nat, j: nat)
    requires Exec(sched).Some? && i <= j <= |sched| && StateAt(sched, i).mem.stop
    ensures StateAt(sched, j).mem.stop && StateAt(sched, j).mem.cycle == StateAt(sched, i).mem.cycle
  {
    hide Exec, StateAt, Inv, Step;
    if i < j {
      NoCycleAfterStop(sched, i, j - 1);
      StateAtStep(sched, j - 1);
      StepAfterStop(StateAt(sched, j - 1), sched[j - 1].0, sched[j - 1].1);
    }
  }
}
