/** When a teardown watchdog aborts the process: its last check, the abort some time after it,
    and what may happen in between. */
module ControlWatchdog {
  import opened Common
  import opened ControlProgram
  import opened ControlInvariant

  /** At most one watchdog is started in a cycle, and the generation it captured is the one
      that lasts exactly until that cycle ends. */
  lemma OneWatchdogPerCycle(sched: Schedule)
    requires Exec(sched).Some?
    ensures var s := Exec(sched).value;
            var dogs := s.log.watchdogs;
            && (forall i, j :: 0 <= i < j < |dogs| ==> dogs[i].cycle != dogs[j].cycle)
            && (forall i :: 0 <= i < |dogs| ==>
                  (dogs[i].generation == s.mem.generation <==> ActiveNow(s, dogs[i].cycle)))
  {
    var s := Exec(sched).value;
    ReachableInv(sched);
    FitsAll(s, Main);
    RunningIsStage(s);
    hide LockInv, ThreadsInv, WriteInv, Stage, Exec, Running;
  }

  /** What a check finds: its first load goes through exactly while the watchdog's own cycle is
      active, its second exactly while no stop is requested. */
  lemma CheckPassesIff(sched: Schedule, k: nat, c: Choice)
    requires Exec(sched).Some? && k < |Exec(sched).value.log.watchdogs|
    ensures var s := Exec(sched).value;
            var dog := s.log.watchdogs[k];
            && (dog.stage == Sleeping ==>
                  && WatchdogStep(s, k, c).Some?
                  && WatchdogStep(s, k, c).value.log.watchdogs[k].stage ==
                     if ActiveNow(s, dog.cycle) then Matched else Gone)
            && (dog.stage == Matched ==>
                  && WatchdogStep(s, k, c).Some?
                  && (WatchdogStep(s, k, c).value.log.watchdogs[k].stage == Gone <==> s.mem.stop))
  {
    OneWatchdogPerCycle(sched);
    hide Exec, ActiveNow;
  }

  // ---- Runs -------------------------------------------------------------------------------

  /** Step `i` is the one with which RunOnce bumps the generation, that is, ends the cycle. */
  ghost predicate BumpsAt(sched: Schedule, i: nat)
    requires Exec(sched).Some? && i < |sched|
  {
    sched[i].0 == ThreadActor(Main) && At(StateAt(sched, i), Main).loc == InRun(BUMP_GENERATION)
  }

  /** Step `i` is a first statement of Stop. */
  ghost predicate StopsAt(sched: Schedule, i: nat)
    requires Exec(sched).Some? && i < |sched|
  {
    sched[i].0.ThreadActor? && sched[i].0.t.Stopper? && At(StateAt(sched, i), sched[i].0.t).loc == Off
  }

  lemma ActCounts(s: State, t: ThreadId, c: Choice)
    requires Fits(t, At(s, t)) && ActStep(s, t, c).Some? && Code(At(s, t).loc) == Act
    ensures var mem := ActStep(s, t, c).value.mem;
            && mem.generation == s.mem.generation + (if At(s, t).loc == InRun(BUMP_GENERATION) then 1 else 0)
            && (mem.stop <==> s.mem.stop || (t.Stopper? && At(s, t).loc == Off))
  {
    var th := At(s, t);
    if th.loc.InRun? {
      RunCounts(s, t, th.loc.run, c);
    } else {
      hide ActStep, Fits, Code;
      OtherActs(s, t, c);
    }
  }

  lemma RunCounts(s: State, t: ThreadId, r: RunLoc, c: Choice)
    requires At(s, t).loc == InRun(r) && RunCode(r) == Act && ActStep(s, t, c).Some?
    ensures var mem := ActStep(s, t, c).value.mem;
            && mem.generation == s.mem.generation + (if r == BUMP_GENERATION then 1 else 0)
            && mem.stop == s.mem.stop
  {
    hide RunAct, RunCode;
    var th := At(s, t);
    BumpGoes(th, s.mem, c);
    if RunAct(th, r, s.mem, c).Goes? {
      RunActScope(th, r, s.mem, c);
      OwnCounts(th, r, s.mem, c);
    }
  }

  lemma BumpGoes(th: Thread, mem: Memory, c: Choice)
    ensures RunAct(th, BUMP_GENERATION, mem, c).Goes?
  {
  }

  lemma ThreadCounts(s: State, t: ThreadId, c: Choice)
    requires Fits(t, At(s, t)) && ThreadStep(s, t, c).Some?
    ensures var mem := ThreadStep(s, t, c).value.mem;
            && mem.generation == s.mem.generation + (if At(s, t).loc == InRun(BUMP_GENERATION) then 1 else 0)
            && (mem.stop <==> s.mem.stop || (t.Stopper? && At(s, t).loc == Off))
            && (At(s, t).loc == InRun(BUMP_GENERATION) ==> t == Main)
  {
    if Code(At(s, t).loc) == Act {
      ActCounts(s, t, c);
    } else {
      assert At(s, t).loc != Off && At(s, t).loc != InRun(BUMP_GENERATION);
    }
    hide ActStep, Code;
  }

  /** One step ends the cycle, or requests a stop, exactly if it is the statement for that. */
  lemma StepCounts(sched: Schedule, i: nat)
    requires Exec(sched).Some? && i < |sched|
    ensures StateAt(sched, i + 1).mem.generation ==
            StateAt(sched, i).mem.generation + if BumpsAt(sched, i) then 1 else 0
    ensures StateAt(sched, i + 1).mem.stop <==> StateAt(sched, i).mem.stop || StopsAt(sched, i)
  {
    StateAtStep(sched, i);
    var s := StateAt(sched, i);
    hide StateAt, ThreadStep, At, Exec;
    match sched[i].0
    case WatchdogActor(k) =>
    case ThreadActor(t) =>
      FitsAll(s, t);
      hide Inv;
      ThreadCounts(s, t, sched[i].1);
  }

  lemma {:induction false} GenerationFrom(sched: Schedule, i: nat, j: nat)
    requires Exec(sched).Some? && i <= j <= |sched|
    ensures StateAt(sched, j).mem.generation >= StateAt(sched, i).mem.generation
    ensures StateAt(sched, j).mem.generation == StateAt(sched, i).mem.generation <==>
            forall b :: i <= b < j ==> !BumpsAt(sched, b)
  {
    hide Exec, StateAt, BumpsAt;
    if i < j {
      GenerationFrom(sched, i, j - 1);
      StepCounts(sched, j - 1);
    }
  }

  lemma {:induction false} StopFrom(sched: Schedule, i: nat, j: nat)
    requires Exec(sched).Some? && i <= j <= |sched|
    ensures StateAt(sched, j).mem.stop <==>
            StateAt(sched, i).mem.stop || exists b :: i <= b < j && StopsAt(sched, b)
  {
    hide Exec, StateAt, StopsAt;
    if i < j {
      StopFrom(sched, i, j - 1);
      StepCounts(sched, j - 1);
    }
  }

  function Dogs(sched: Schedule, i: nat): seq<Watchdog>
    requires Exec(sched).Some? && i <= |sched|
  {
    StateAt(sched, i).log.watchdogs
  }

  lemma RunKeepsLog(s: State, t: ThreadId, c: Choice)
    requires At(s, t).loc.InRun? && ActStep(s, t, c).Some?
    ensures ActStep(s, t, c).value.log == s.log && ActStep(s, t, c).value.aborted == s.aborted
  {
    hide RunAct;
  }

  /** A step of a thread keeps the watchdogs there are and may start one. */
  lemma ThreadKeepsDogs(s: State, t: ThreadId, c: Choice)
    requires ThreadStep(s, t, c).Some?
    ensures var dogs, dogs' := s.log.watchdogs, ThreadStep(s, t, c).value.log.watchdogs;
            dogs <= dogs' && forall k :: |dogs| <= k < |dogs'| ==> dogs'[k].stage == Sleeping
    ensures ThreadStep(s, t, c).value.aborted == s.aborted
  {
    hide ActStep, Code;
    if Code(At(s, t).loc) == Act {
      if At(s, t).loc.InRun? {
        RunKeepsLog(s, t, c);
      } else {
        OtherActs(s, t, c);
      }
    }
  }

  /** A step of anyone else leaves a watchdog as it is; its own changes only its stage. */
  lemma DogStep(sched: Schedule, i: nat, k: nat)
    requires Exec(sched).Some? && i < |sched| && k < |Dogs(sched, i)|
    ensures k < |Dogs(sched, i + 1)|
    ensures var dog, dog' := Dogs(sched, i)[k], Dogs(sched, i + 1)[k];
            && dog'.generation == dog.generation && dog'.cycle == dog.cycle
            && (sched[i].0 != WatchdogActor(k) ==> dog' == dog)
            && (sched[i].0 == WatchdogActor(k) && StateAt(sched, i + 1).aborted.None? ==>
                  && dog.stage != Passed && dog.stage != Gone
                  && dog'.stage == DogStageAfter(dog, StateAt(sched, i).mem, sched[i].1))
            && (sched[i].0 == WatchdogActor(k) && StateAt(sched, i + 1).aborted.Some? ==> dog.stage == Passed)
  {
    hide StateAt, Exec, Inv, ThreadStep, ActiveNow;
    StateAtStep(sched, i);
    match sched[i].0
    case WatchdogActor(_) =>
    case ThreadActor(t) => ThreadKeepsDogs(StateAt(sched, i), t, sched[i].1);
  }

  // ---- A finished cycle -------------------------------------------------------------------

  /** Once its cycle is over, a watchdog that is not already past its first load can only go
      away: it never passes a check in a later cycle. */
  lemma {:induction false} FinishedCycleNeverPasses(sched: Schedule, i: nat, j: nat, k: nat)
    requires Exec(sched).Some? && i <= j <= |sched| && k < |Dogs(sched, i)|
    requires !ActiveNow(StateAt(sched, i), Dogs(sched, i)[k].cycle)
    requires Dogs(sched, i)[k].stage == Sleeping || Dogs(sched, i)[k].stage == Gone
    ensures k < |Dogs(sched, j)| && Dogs(sched, j)[k].generation == Dogs(sched, i)[k].generation
    ensures Dogs(sched, j)[k].stage == Sleeping || Dogs(sched, j)[k].stage == Gone
    ensures StateAt(sched, j).aborted.Some? ==> StateAt(sched, j).aborted.value.dog != k
  {
    hide StateAt, Dogs, Exec, BumpsAt, ActiveNow;
    if i == j {
      AbortedDogPassed(sched, i);
    } else {
      FinishedCycleNeverPasses(sched, i, j - 1, k);
      DogStep(sched, j - 1, k);
      GenerationFrom(sched, i, j - 1);
      DogIsPast(sched, i, k);
      AbortedDogPassed(sched, j);
    }
  }

  /** The generation of a watchdog of a finished cycle is a past one. */
  lemma DogIsPast(sched: Schedule, i: nat, k: nat)
    requires Exec(sched).Some? && i <= |sched| && k < |Dogs(sched, i)|
    ensures Dogs(sched, i)[k].generation <= StateAt(sched, i).mem.generation
    ensures Dogs(sched, i)[k].generation == StateAt(sched, i).mem.generation <==>
            ActiveNow(StateAt(sched, i), Dogs(sched, i)[k].cycle)
  {
    PrefixRuns(sched, i);
    OneWatchdogPerCycle(sched[..i]);
    ReachableInv(sched[..i]);
    var s := StateAt(sched, i);
    assert s.log.watchdogs[k].cycle == s.log.watchdogs[k].generation + 1 <= s.mem.cycle;
    assert s.mem.cycle <= s.mem.generation + 1;
  }

  /** The watchdog that aborts has passed its check, and the abort is the last step of all. */
  lemma AbortedDogPassed(sched: Schedule, i: nat)
    requires Exec(sched).Some? && i <= |sched|
    ensures StateAt(sched, i).aborted.Some? ==>
            var a := StateAt(sched, i).aborted.value;
            && i == |sched| > 0 && sched[i - 1].0 == WatchdogActor(a.dog)
            && a.dog < |Dogs(sched, i - 1)| && Dogs(sched, i - 1)[a.dog].stage == Passed
            && Dogs(sched, i) == Dogs(sched, i - 1)
            && a.active == ActiveNow(StateAt(sched, i - 1), Dogs(sched, i - 1)[a.dog].cycle)
            && a.stopped == StateAt(sched, i - 1).mem.stop
  {
    hide StateAt, Exec, Inv, ThreadStep, ActiveNow;
    if i == 0 {
      NoAbortAtFirst(sched);
    } else if StateAt(sched, i).aborted.Some? {
      StateAtStep(sched, i - 1);
      if i < |sched| {
        StateAtStep(sched, i);
      }
      match sched[i - 1].0
      case WatchdogActor(_) =>
      case ThreadActor(t) => ThreadKeepsDogs(StateAt(sched, i - 1), t, sched[i - 1].1);
    }
  }

  lemma NoAbortAtFirst(sched: Schedule)
    requires Exec(sched).Some?
    ensures StateAt(sched, 0).aborted.None?
  {
    assert sched[..0] == [];
  }

  // ---- The last check and the abort -------------------------------------------------------

  lemma NewDogSleeps(sched: Schedule, i: nat, k: nat)
    requires Exec(sched).Some? && i < |sched| && |Dogs(sched, i)| <= k < |Dogs(sched, i + 1)|
    ensures Dogs(sched, i + 1)[k].stage == Sleeping
  {
    hide StateAt, Exec, Inv, ThreadStep, ActiveNow;
    StateAtStep(sched, i);
    match sched[i].0
    case WatchdogActor(_) =>
    case ThreadActor(t) => ThreadKeepsDogs(StateAt(sched, i), t, sched[i].1);
  }

  lemma NoDogsAtFirst(sched: Schedule)
    requires Exec(sched).Some?
    ensures Dogs(sched, 0) == []
  {
    assert sched[..0] == [];
  }

  /** The step with which a watchdog came to the stage it is in, its latest one. */
  lemma {:induction false} Entered(sched: Schedule, j: nat, k: nat) returns (i: nat)
    requires Exec(sched).Some? && j <= |sched| && StateAt(sched, j).aborted.None? && k < |Dogs(sched, j)|
    requires Dogs(sched, j)[k].stage == Matched || Dogs(sched, j)[k].stage == Passed
    ensures i < j && k < |Dogs(sched, i)| && sched[i].0 == WatchdogActor(k)
    ensures Dogs(sched, i)[k].generation == Dogs(sched, j)[k].generation
    ensures Dogs(sched, i)[k].cycle == Dogs(sched, j)[k].cycle
    ensures Dogs(sched, j)[k].stage == DogStageAfter(Dogs(sched, i)[k], StateAt(sched, i).mem, sched[i].1)
    ensures Dogs(sched, i)[k].stage == if Dogs(sched, j)[k].stage == Matched then Sleeping else Matched
    ensures forall b :: i < b < j ==> sched[b].0 != WatchdogActor(k)
    ensures StateAt(sched, i).aborted.None?
  {
    hide StateAt, Dogs, Exec;
    NoDogsAtFirst(sched);
    if k >= |Dogs(sched, j - 1)| {
      NewDogSleeps(sched, j - 1, k);
    }
    DogStep(sched, j - 1, k);
    AbortedDogPassed(sched, j - 1);
    if sched[j - 1].0 == WatchdogActor(k) {
      i := j - 1;
    } else {
      i := Entered(sched, j - 1, k);
    }
  }

  /** The step of the schedule that is the abort, and the watchdog that makes it. */
  predicate AbortedBy(sched: Schedule, k: nat) {
    Exec(sched).Some? && Exec(sched).value.aborted.Some? && Exec(sched).value.aborted.value.dog == k
  }

  /** `load` and `test` are the two loads of the last check of watchdog `k`, both of which let
      it go on, and its only steps from there to the abort, the last step of the schedule. */
  ghost predicate LastCheck(sched: Schedule, k: nat, load: nat, test: nat)
    requires Exec(sched).Some?
  {
    && load < test < |sched| - 1
    && sched[load].0 == sched[test].0 == sched[|sched| - 1].0 == WatchdogActor(k)
    && (forall b :: load < b < |sched| - 1 && b != test ==> sched[b].0 != WatchdogActor(k))
    && k < |Dogs(sched, load)|
    && StateAt(sched, load).mem.generation == Dogs(sched, load)[k].generation
    && !StateAt(sched, test).mem.stop
  }

  /** Every abort follows such a check. It comes in time, that is, while the watchdog's cycle is
      still active, exactly if no step between the load of the generation and the abort ends
      the cycle; and it comes before any request to stop exactly if no step between the load of
      the stop flag and the abort makes one. */
  lemma AbortInTimeIff(sched: Schedule, k: nat) returns (load: nat, test: nat)
    requires AbortedBy(sched, k)
    ensures LastCheck(sched, k, load, test)
    ensures var a := Exec(sched).value.aborted.value;
            && (a.active <==> forall b :: load < b < |sched| - 1 ==> !BumpsAt(sched, b))
            && (!a.stopped <==> forall b :: test < b < |sched| - 1 ==> !StopsAt(sched, b))
  {
    hide StateAt, Dogs, Exec, ActiveNow;
    var last := |sched| - 1;
    StateAtEnd(sched);
    AbortedDogPassed(sched, |sched|);
    AbortedDogPassed(sched, last);
    test := Entered(sched, last, k);
    load := Entered(sched, test, k);
    DogIsPast(sched, last, k);
    DogIsPast(sched, load, k);
    GenerationFrom(sched, load, last);
    StopFrom(sched, test, last);
    assert !BumpsAt(sched, load) && !StopsAt(sched, test);
  }

  // ---- An abort that comes too late -------------------------------------------------------

  /** What a run of the main thread alone depends on: the thread, the others being off, the
      members and the log. */
  datatype Spot = Spot(th: Thread, mem: Memory, log: Log)

  ghost predicate Stands(s: State, p: Spot) {
    && !Over(s) && At(s, Main) == p.th && s.mem == p.mem && s.log == p.log
    && (forall m :: m in s.owner <==> m in p.th.held)
    && s.threads.Keys == {Main}
  }

  ghost predicate Here(sched: Schedule, p: Spot) {
    Exec(sched).Some? && Stands(Exec(sched).value, p)
  }

  /** Where the main thread's next step leads, if that step neither looks at nor starts another
      thread. */
  function Ahead(p: Spot): Option<Spot> {
    var th := p.th;
    match Code(th.loc)
    case Lock(m, next) =>
      if th.held == [] then Some(p.(th := th.(loc := next, held := [m]))) else None
    case Unlock(next) =>
      if |th.held| == 1 then Some(p.(th := th.(loc := next, held := []))) else None
    case Call(entry, ret) => Some(p.(th := th.(loc := entry, ret := ret)))
    case Return => Some(p.(th := th.(loc := th.ret)))
    case Act =>
      (match th.loc
       case InRun(r) =>
         (match RunAct(th, r, p.mem, Second)
          case Goes(loc, mem) => Some(p.(th := th.(loc := loc), mem := mem))
          case _ => None)
       case InSend(x) => Some(p.(th := SendAct(th, x, p.mem, Second)))
       case InCancel(x) =>
         var (th', mem, log) := CancelAct(th, x, p.mem, p.log, Home(th) != InRun(OUTSIDE), Second);
         Some(Spot(th', mem, log))
       case _ => None)
    case _ => None
  }

  lemma ActAhead(s: State, p: Spot)
    requires Stands(s, p) && Code(p.th.loc) == Act && Ahead(p).Some?
    ensures ActStep(s, Main, Second).Some? && Stands(ActStep(s, Main, Second).value, Ahead(p).value)
  {
    hide RunAct, Code;
  }

  /** One more step of the main thread. */
  lemma Go(sched: Schedule, p: Spot, p': Spot) returns (next: Schedule, q: Spot)
    requires Here(sched, p) && Ahead(p) == Some(p')
    ensures Here(next, p') && q == p'
  {
    next, q := sched + [(ThreadActor(Main), Second)], p';
    ExecNext(sched, ThreadActor(Main), Second);
    if Code(p.th.loc) == Act {
      ActAhead(Exec(sched).value, p);
      hide Ahead;
    } else if Code(p.th.loc).Unlock? {
      assert p.th.held[..0] == [] && p.th.held == [p.th.held[0]];
    }
    hide ActStep, Exec, Code;
  }

  /** The main thread at a statement of RunOnce, holding nothing. */
  function Resting(r: RunLoc, ret: Loc, target: Option<nat>, mem: Memory, log: Log): Spot {
    Spot(Thread(InRun(r), ret, [], false, 0, target), mem, log)
  }

  const MADE: Memory := INIT.mem.(alive := Some(1), cycle := 1)
  const STASHED: Memory := MADE.(ctx := Some(1), stream := Some(1))
  const ARMED: Memory := STASHED.(armed := true)
  const NEXT: Memory := INIT.mem.(cycle := 2, generation := 1, armed := true)
  const CANCELLED: seq<Touch> := [Touch(Some(1), true)]

  const AT_EXCHANGE: Spot :=
    Spot(Thread(InCancel(ExchangeArmed), InRun(LOCK_MOVE), [CtxMutex], false, 0, Some(1)),
         STASHED, Log([], CANCELLED))

  /** One TryCancel and one watchdog. */
  function Watched(stage: DogStage): Log {
    Log([Watchdog(0, 1, stage)], CANCELLED)
  }

  /** RunOnce makes its context and stream. */
  lemma MakesContext(before: Schedule) returns (sched: Schedule)
    requires Here(before, Resting(OUTSIDE, Off, None, INIT.mem, INIT.log))
    ensures Here(sched, Resting(LOCK_CTX, Off, None, MADE, INIT.log))
  {
    hide Here, Exec;
    sched := before;
    var p := Resting(OUTSIDE, Off, None, INIT.mem, INIT.log);
    sched, p := Go(sched, p, p.(th := p.th.(loc := InRun(CLEAR_FAILED)), mem := p.mem.(cycle := 1)));
    sched, p := Go(sched, p, p.(th := p.th.(loc := InRun(CLEAR_ARMED))));
    sched, p := Go(sched, p, p.(th := p.th.(loc := InRun(CREDENTIALS))));
    sched, p := Go(sched, p, p.(th := p.th.(loc := InRun(MAKE_CONTEXT))));
    sched, p := Go(sched, p, p.(th := p.th.(loc := InRun(LOCK_CTX)), mem := p.mem.(alive := Some(1))));
  }

  /** It stashes them. */
  lemma StashesContext(before: Schedule) returns (sched: Schedule)
    requires Here(before, Resting(LOCK_CTX, Off, None, MADE, INIT.log))
    ensures Here(sched, Resting(SEND_REGISTER, Off, None, STASHED, INIT.log))
  {
    hide Here, Exec;
    sched := before;
    var p := Resting(LOCK_CTX, Off, None, MADE, INIT.log);
    sched, p := Go(sched, p, p.(th := p.th.(loc := InRun(SET_CTX), held := [CtxMutex])));
    sched, p := Go(sched, p, p.(th := p.th.(loc := InRun(UNLOCK_CTX)), mem := p.mem.(ctx := Some(1))));
    sched, p := Go(sched, p, p.(th := p.th.(loc := InRun(LOCK_STREAM), held := [])));
    sched, p := Go(sched, p, p.(th := p.th.(loc := InRun(SET_STREAM), held := [WriteMutex])));
    sched, p := Go(sched, p, p.(th := p.th.(loc := InRun(UNLOCK_STREAM)), mem := p.mem.(stream := Some(1))));
    sched, p := Go(sched, p, p.(th := p.th.(loc := InRun(SEND_REGISTER), held := [])));
  }

  /** Sending Register fails. */
  lemma FailsToRegister(before: Schedule) returns (sched: Schedule)
    requires Here(before, Resting(SEND_REGISTER, Off, None, STASHED, INIT.log))
    ensures Here(sched, Resting(CLEANUP_CANCEL, InRun(REGISTER_SENT), Some(1), STASHED, INIT.log))
  {
    hide Here, Exec;
    sched := before;
    var p := Resting(SEND_REGISTER, Off, None, STASHED, INIT.log);
    sched, p := Go(sched, p, p.(th := p.th.(loc := InSend(LockWrite), ret := InRun(REGISTER_SENT))));
    sched, p := Go(sched, p, p.(th := p.th.(loc := InSend(TestStream), held := [WriteMutex])));
    sched, p := Go(sched, p, p.(th := p.th.(loc := InSend(StartWrite))));
    sched, p := Go(sched, p, p.(th := p.th.(loc := InSend(Writing), target := Some(1))));
    sched, p := Go(sched, p, p.(th := p.th.(loc := InSend(UnlockWrite))));
    sched, p := Go(sched, p, p.(th := p.th.(loc := InSend(SendReturns), held := [])));
    sched, p := Go(sched, p, p.(th := p.th.(loc := InRun(REGISTER_SENT))));
    sched, p := Go(sched, p, p.(th := p.th.(loc := InRun(CLEANUP_CANCEL))));
  }

  /** CancelStream cancels the context. */
  lemma CancelsContext(before: Schedule) returns (sched: Schedule)
    requires Here(before, Resting(CLEANUP_CANCEL, InRun(REGISTER_SENT), Some(1), STASHED, INIT.log))
    ensures Here(sched, AT_EXCHANGE)
  {
    hide Here, Exec;
    sched := before;
    var p := Resting(CLEANUP_CANCEL, InRun(REGISTER_SENT), Some(1), STASHED, INIT.log);
    sched, p := Go(sched, p, p.(th := p.th.(loc := InCancel(LockCancel), ret := InRun(LOCK_MOVE))));
    sched, p := Go(sched, p, p.(th := p.th.(loc := InCancel(TestCtx), held := [CtxMutex])));
    sched, p := Go(sched, p, p.(th := p.th.(loc := InCancel(TryCancel))));
    assert p.log.cancels + [Touch(Some(1), true)] == CANCELLED;
    sched, p := Go(sched, p, p.(th := p.th.(loc := InCancel(ExchangeArmed)), log := Log([], CANCELLED)));
  }

  /** It starts a watchdog. */
  lemma ArmsWatchdog(before: Schedule) returns (sched: Schedule)
    requires Here(before, AT_EXCHANGE)
    ensures Here(sched, Resting(LOCK_MOVE, InRun(LOCK_MOVE), Some(1), ARMED, Watched(Sleeping)))
  {
    hide Here, Exec;
    sched := before;
    var p := AT_EXCHANGE;
    sched, p := Go(sched, p, p.(th := p.th.(loc := InCancel(ReadEnvironment)), mem := p.mem.(armed := true)));
    sched, p := Go(sched, p, p.(th := p.th.(loc := InCancel(LoadGeneration))));
    sched, p := Go(sched, p, p.(th := p.th.(loc := InCancel(StartWatchdog))));
    assert p.log.watchdogs + [Watchdog(0, 1, Sleeping)] == [Watchdog(0, 1, Sleeping)];
    sched, p := Go(sched, p, p.(th := p.th.(loc := InCancel(UnlockCancel)), log := Watched(Sleeping)));
    sched, p := Go(sched, p, p.(th := p.th.(loc := InCancel(CancelReturns), held := [])));
    sched, p := Go(sched, p, p.(th := p.th.(loc := InRun(LOCK_MOVE))));
  }

  /** The watchdog takes its last check while the main thread is still cleaning up. */
  lemma ChecksInTime(before: Schedule) returns (sched: Schedule)
    requires Here(before, Resting(LOCK_MOVE, InRun(LOCK_MOVE), Some(1), ARMED, Watched(Sleeping)))
    ensures Here(sched, Resting(LOCK_MOVE, InRun(LOCK_MOVE), Some(1), ARMED, Watched(Passed)))
  {
    ExecNext(before, WatchdogActor(0), First);
    sched := before + [(WatchdogActor(0), First)];
    assert Exec(sched).Some? && Exec(sched).value.log.watchdogs == [Watchdog(0, 1, Matched)];
    ExecNext(sched, WatchdogActor(0), First);
    sched := sched + [(WatchdogActor(0), First)];
    assert Exec(sched).Some? && Exec(sched).value.log.watchdogs == [Watchdog(0, 1, Passed)];
  }

  /** A run in which the watchdog has passed its last check, in time. */
  lemma PassesCheck() returns (sched: Schedule)
    ensures Here(sched, Resting(LOCK_MOVE, InRun(LOCK_MOVE), Some(1), ARMED, Watched(Passed)))
  {
    assert Here([], Resting(OUTSIDE, Off, None, INIT.mem, INIT.log));
    sched := MakesContext([]);
    sched := StashesContext(sched);
    sched := FailsToRegister(sched);
    sched := CancelsContext(sched);
    sched := ArmsWatchdog(sched);
    sched := ChecksInTime(sched);
  }

  /** The main thread goes on with the cleanup. */
  lemma ClearsContext(before: Schedule) returns (sched: Schedule)
    requires Here(before, Resting(LOCK_MOVE, InRun(LOCK_MOVE), Some(1), ARMED, Watched(Passed)))
    ensures Here(sched, Resting(LOCK_CLEAR_STREAM, InRun(LOCK_MOVE), Some(1), ARMED.(ctx := None), Watched(Passed)))
  {
    hide Here, Exec;
    sched := before;
    var p := Resting(LOCK_MOVE, InRun(LOCK_MOVE), Some(1), ARMED, Watched(Passed));
    sched, p := Go(sched, p, p.(th := p.th.(loc := InRun(MOVE_LIST), held := [SessionIdsMutex])));
    sched, p := Go(sched, p, p.(th := p.th.(loc := InRun(UNLOCK_MOVE))));
    sched, p := Go(sched, p, p.(th := p.th.(loc := InRun(LOCK_CLEAR_CTX), held := [])));
    sched, p := Go(sched, p, p.(th := p.th.(loc := InRun(CLEAR_CTX), held := [CtxMutex])));
    sched, p := Go(sched, p, p.(th := p.th.(loc := InRun(UNLOCK_CLEAR_CTX)), mem := p.mem.(ctx := None)));
    sched, p := Go(sched, p, p.(th := p.th.(loc := InRun(LOCK_CLEAR_STREAM), held := [])));
  }

  /** RunOnce returns, and the next one begins. */
  lemma BeginsNextCycle(before: Schedule) returns (sched: Schedule)
    requires Here(before, Resting(LOCK_CLEAR_STREAM, InRun(LOCK_MOVE), Some(1), ARMED.(ctx := None), Watched(Passed)))
    ensures Here(sched, Resting(CLEAR_FAILED, InRun(LOCK_MOVE), Some(1), NEXT, Watched(Passed)))
  {
    hide Here, Exec;
    sched := before;
    var p := Resting(LOCK_CLEAR_STREAM, InRun(LOCK_MOVE), Some(1), ARMED.(ctx := None), Watched(Passed));
    sched, p := Go(sched, p, p.(th := p.th.(loc := InRun(CLEAR_STREAM), held := [WriteMutex])));
    sched, p := Go(sched, p, p.(th := p.th.(loc := InRun(UNLOCK_CLEAR_STREAM)), mem := p.mem.(stream := None)));
    sched, p := Go(sched, p, p.(th := p.th.(loc := InRun(DESTROY_CONTEXT), held := [])));
    sched, p := Go(sched, p, p.(th := p.th.(loc := InRun(BUMP_GENERATION)), mem := p.mem.(alive := None)));
    sched, p := Go(sched, p, p.(th := p.th.(loc := InRun(OUTSIDE)), mem := p.mem.(generation := 1)));
    sched, p := Go(sched, p, p.(th := p.th.(loc := InRun(CLEAR_FAILED)), mem := p.mem.(cycle := 2)));
  }

  /** An abort may come after its watchdog's cycle is over, in the middle of the next one: the
      check came before the end of the cycle, the abort after it. */
  lemma AbortCanComeLate() returns (sched: Schedule)
    ensures AbortedBy(sched, 0) && !Exec(sched).value.aborted.value.active
    ensures var s := Exec(sched).value;
            Running(s) && s.mem.cycle == 2 && s.log.watchdogs == [Watchdog(0, 1, Passed)]
  {
    sched := PassesCheck();
    sched := ClearsContext(sched);
    sched := BeginsNextCycle(sched);
    ExecNext(sched, WatchdogActor(0), First);
    sched := sched + [(WatchdogActor(0), First)];
  }

  /** It may also come after a request to stop. */
  lemma AbortCanFollowStop() returns (sched: Schedule)
    ensures AbortedBy(sched, 0) && Exec(sched).value.aborted.value.stopped
  {
    sched := PassesCheck();
    ExecNext(sched, ThreadActor(Stopper(0)), First);
    sched := sched + [(ThreadActor(Stopper(0)), First)];
    ExecNext(sched, WatchdogActor(0), First);
    sched := sched + [(WatchdogActor(0), First)];
  }
}
