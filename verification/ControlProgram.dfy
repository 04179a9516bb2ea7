/** The program text of the control client (accelerator_control_client.cpp), cut into atomic
    steps: one access to shared state, one lock or one unlock at a time. The threads are the
    main loop, the keepalive and pump threads of a connection, any number of threads calling
    Stop, and the detached teardown watchdogs. */
module ControlProgram {
  import opened Common

  datatype Mutex = WriteMutex | CtxMutex | SessionIdsMutex

  datatype ThreadId = Main | Keepalive | Pump | Stopper(n: nat)

  // ---- Locations --------------------------------------------------------------------------

  /** Run and RunOnce, with `cleanup`, TeardownLocalSessions and HandleSignalingMessage: the
      statements in the order the main thread passes them. */
  type RunLoc = nat

  // Run, and the first statements of RunOnce (lines 163-195)
  const OUTSIDE: RunLoc := 0
  const CLEAR_FAILED: RunLoc := 1
  const CLEAR_ARMED: RunLoc := 2
  // Credentials, context and stream (197-227)
  const CREDENTIALS: RunLoc := 3
  const MAKE_CONTEXT: RunLoc := 4
  // The context and the stream are stashed for the other threads (230-238)
  const LOCK_CTX: RunLoc := 5
  const SET_CTX: RunLoc := 6
  const UNLOCK_CTX: RunLoc := 7
  const LOCK_STREAM: RunLoc := 8
  const SET_STREAM: RunLoc := 9
  const UNLOCK_STREAM: RunLoc := 10
  // Register and its answer (252-300)
  const SEND_REGISTER: RunLoc := 11
  const REGISTER_SENT: RunLoc := 12
  const READ_ACK: RunLoc := 13
  // The helper threads of the connection (302-311)
  const DECLARE_STOP: RunLoc := 14
  const SPAWN_KEEPALIVE: RunLoc := 15
  const SPAWN_PUMP: RunLoc := 16
  // The read loop (320-325), with the list of session ids in HandleSignalingMessage (463-525)
  const LOOP_STOP: RunLoc := 17
  const LOOP_FAILED: RunLoc := 18
  const LOOP_READ: RunLoc := 19
  const LOCK_LIST: RunLoc := 20
  const EDIT_LIST: RunLoc := 21
  const UNLOCK_LIST: RunLoc := 22
  const SEND_RESPONSE: RunLoc := 23
  // The helper threads end (332-336)
  const END_THREADS: RunLoc := 24
  const JOIN_KEEPALIVE: RunLoc := 25
  const JOIN_PUMP: RunLoc := 26
  // cleanup (240-249), with TeardownLocalSessions (413-434)
  const CLEANUP_CANCEL: RunLoc := 27
  const LOCK_MOVE: RunLoc := 28
  const MOVE_LIST: RunLoc := 29
  const UNLOCK_MOVE: RunLoc := 30
  const LOCK_CLEAR_CTX: RunLoc := 31
  const CLEAR_CTX: RunLoc := 32
  const UNLOCK_CLEAR_CTX: RunLoc := 33
  const LOCK_CLEAR_STREAM: RunLoc := 34
  const CLEAR_STREAM: RunLoc := 35
  const UNLOCK_CLEAR_STREAM: RunLoc := 36
  // The locals of RunOnce are destroyed (192-227)
  const DESTROY_CONTEXT: RunLoc := 37
  const BUMP_GENERATION: RunLoc := 38

  /** KeepaliveLoop (lines 380-411). */
  datatype KeepaliveLoc =
    | KeepaliveConnection | KeepaliveStop | KeepaliveSend | KeepaliveSent
    | KeepaliveFail | KeepaliveCancel | KeepaliveEnd

  /** The pump thread with CandidatePumpLoop (lines 306-311, 528-557). */
  datatype PumpLoc = PumpConnection | PumpStop | LockIds | CopyIds | UnlockIds | PumpNext | PumpSend

  /** Send, called from several places (lines 351-362). */
  datatype SendLoc = LockWrite | TestStream | StartWrite | Writing | UnlockWrite | SendReturns

  /** CancelStream with ArmTeardownWatchdog, called from several places (lines 108-152). */
  datatype CancelLoc =
    | LockCancel | TestCtx | TryCancel | ExchangeArmed | ReadEnvironment | LoadGeneration | StartWatchdog
    | UnlockCancel | CancelReturns

  datatype Loc =
    | Off
    | InRun(run: RunLoc)
    | InKeepalive(keepalive: KeepaliveLoc)
    | InPump(pump: PumpLoc)
    | InStop
    | InSend(send: SendLoc)
    | InCancel(cancel: CancelLoc)

  // ---- State ------------------------------------------------------------------------------

  /** A thread: where it is, where the current call returns to, the mutexes of the lock_guards
      whose scopes it is in, innermost last, and its locals: the result of Send, the generation
      loaded for a watchdog and the stream a Write is on. */
  datatype Thread =
    Thread(loc: Loc, ret: Loc, held: seq<Mutex>, ok: bool, generation: nat, target: Option<nat>)

  function Fresh(loc: Loc): Thread {
    Thread(loc, Off, [], false, 0, None)
  }

  /** The members of the client that threads share, and two things the proofs remember:
      `cycle` counts calls of RunOnce, `alive` is the one whose context and stream exist. */
  datatype Memory = Memory(
    ctx: Option<nat>, stream: Option<nat>, alive: Option<nat>, cycle: nat, generation: nat,
    armed: bool, stop: bool, failed: bool, connectionStop: bool)

  /** A watchdog sleeps between its polls; each poll loads the generation, then the stop flag.
      It has passed when the poll was the last one and neither load sent it away. */
  datatype DogStage = Sleeping | Matched | Passed | Gone

  datatype Watchdog = Watchdog(generation: nat, cycle: nat, stage: DogStage)

  /** The context a TryCancel was made on, and whether it was that of the active RunOnce and
      still existed. */
  datatype Touch = Touch(context: Option<nat>, live: bool)

  datatype Log = Log(watchdogs: seq<Watchdog>, cancels: seq<Touch>)

  /** Which watchdog aborted, whether its cycle was still active and whether a stop had been
      requested by then. */
  datatype Abort = Abort(dog: nat, active: bool, stopped: bool)

  datatype State = State(
    threads: map<ThreadId, Thread>, owner: map<Mutex, ThreadId>, mem: Memory, log: Log,
    aborted: Option<Abort>, exited: bool)

  const INIT: State :=
    State(map[Main := Fresh(InRun(OUTSIDE))], map[], Memory(None, None, None, 0, 0, false, false, false, false),
          Log([], []), None, false)

  function At(s: State, t: ThreadId): Thread {
    if t in s.threads then s.threads[t] else Fresh(Off)
  }

  /** Where a thread is in its own code: during a call, where the call returns to. */
  function Home(th: Thread): Loc {
    if th.loc.InSend? || th.loc.InCancel? then th.ret else th.loc
  }

  /** RunOnce is active from its first statement until the generation is bumped. */
  predicate Running(s: State) {
    Home(At(s, Main)) != InRun(OUTSIDE)
  }

  predicate ActiveNow(s: State, cycle: nat) {
    Running(s) && cycle == s.mem.cycle
  }

  // ---- Program text -----------------------------------------------------------------------

  /** A lock_guard locks where it is declared and unlocks at the end of its scope. Act stands
      for a statement on the members of the client or the locals of the thread. */
  datatype Instr =
    | Lock(m: Mutex, next: Loc)
    | Unlock(next: Loc)
    | Call(entry: Loc, ret: Loc)
    | Return
    | Spawn(t: ThreadId, entry: Loc, next: Loc)
    | Join(t: ThreadId, next: Loc)
    | Act

  function RunCode(r: RunLoc): Instr {
    if r == LOCK_CTX then Lock(CtxMutex, InRun(SET_CTX))
    else if r == UNLOCK_CTX then Unlock(InRun(LOCK_STREAM))
    else if r == LOCK_STREAM then Lock(WriteMutex, InRun(SET_STREAM))
    else if r == UNLOCK_STREAM then Unlock(InRun(SEND_REGISTER))
    else if r == SEND_REGISTER then Call(InSend(LockWrite), InRun(REGISTER_SENT))
    else if r == SPAWN_KEEPALIVE then Spawn(Keepalive, InKeepalive(KeepaliveConnection), InRun(SPAWN_PUMP))
    else if r == SPAWN_PUMP then Spawn(Pump, InPump(PumpConnection), InRun(LOOP_STOP))
    else if r == JOIN_KEEPALIVE then Join(Keepalive, InRun(JOIN_PUMP))
    else if r == JOIN_PUMP then Join(Pump, InRun(CLEANUP_CANCEL))
    else if r == LOCK_LIST then Lock(SessionIdsMutex, InRun(EDIT_LIST))
    else if r == UNLOCK_LIST then Unlock(InRun(SEND_RESPONSE))
    else if r == SEND_RESPONSE then Call(InSend(LockWrite), InRun(LOOP_STOP))
    else if r == CLEANUP_CANCEL then Call(InCancel(LockCancel), InRun(LOCK_MOVE))
    else if r == LOCK_MOVE then Lock(SessionIdsMutex, InRun(MOVE_LIST))
    else if r == UNLOCK_MOVE then Unlock(InRun(LOCK_CLEAR_CTX))
    else if r == LOCK_CLEAR_CTX then Lock(CtxMutex, InRun(CLEAR_CTX))
    else if r == UNLOCK_CLEAR_CTX then Unlock(InRun(LOCK_CLEAR_STREAM))
    else if r == LOCK_CLEAR_STREAM then Lock(WriteMutex, InRun(CLEAR_STREAM))
    else if r == UNLOCK_CLEAR_STREAM then Unlock(InRun(DESTROY_CONTEXT))
    else Act
  }

  function Code(loc: Loc): Instr {
    match loc
    case Off => Act
    case InRun(r) => RunCode(r)
    case InKeepalive(KeepaliveSend) => Call(InSend(LockWrite), InKeepalive(KeepaliveSent))
    case InKeepalive(KeepaliveCancel) => Call(InCancel(LockCancel), InKeepalive(KeepaliveEnd))
    case InKeepalive(_) => Act
    case InPump(LockIds) => Lock(SessionIdsMutex, InPump(CopyIds))
    case InPump(UnlockIds) => Unlock(InPump(PumpNext))
    case InPump(PumpSend) => Call(InSend(LockWrite), InPump(PumpNext))
    case InPump(_) => Act
    case InStop => Call(InCancel(LockCancel), Off)
    case InSend(LockWrite) => Lock(WriteMutex, InSend(TestStream))
    case InSend(UnlockWrite) => Unlock(InSend(SendReturns))
    case InSend(SendReturns) => Return
    case InSend(_) => Act
    case InCancel(LockCancel) => Lock(CtxMutex, InCancel(TestCtx))
    case InCancel(UnlockCancel) => Unlock(InCancel(CancelReturns))
    case InCancel(CancelReturns) => Return
    case InCancel(_) => Act
  }

  /** What the outside decides: results of calls, timing, which message arrives. */
  datatype Choice = First | Second | Third | Fourth

  datatype Move = Blocks | Exits | Goes(loc: Loc, mem: Memory)

  /** Read fails, or brings a message that opens or closes a session, one that is answered
      without touching the list of sessions, or one that is not answered. */
  function AfterRead(c: Choice): RunLoc {
    match c
    case First => END_THREADS
    case Second => LOCK_LIST
    case Third => SEND_RESPONSE
    case Fourth => LOOP_STOP
  }

  function RunAct(th: Thread, r: RunLoc, mem: Memory, c: Choice): Move {
    if r == OUTSIDE then
      if mem.stop then Blocks else Goes(InRun(CLEAR_FAILED), mem.(cycle := mem.cycle + 1))
    else if r == CLEAR_FAILED then Goes(InRun(CLEAR_ARMED), mem.(failed := false))
    else if r == CLEAR_ARMED then Goes(InRun(CREDENTIALS), mem.(armed := false))
    else if r == CREDENTIALS then Goes(InRun(if c == First then BUMP_GENERATION else MAKE_CONTEXT), mem)
    else if r == MAKE_CONTEXT then Goes(InRun(LOCK_CTX), mem.(alive := Some(mem.cycle)))
    else if r == SET_CTX then Goes(InRun(UNLOCK_CTX), mem.(ctx := Some(mem.cycle)))
    else if r == SET_STREAM then Goes(InRun(UNLOCK_STREAM), mem.(stream := Some(mem.cycle)))
    else if r == REGISTER_SENT then Goes(InRun(if th.ok then READ_ACK else CLEANUP_CANCEL), mem)
    else if r == READ_ACK then
      if c == Second then Exits else Goes(InRun(if c == First then DECLARE_STOP else CLEANUP_CANCEL), mem)
    else if r == DECLARE_STOP then Goes(InRun(SPAWN_KEEPALIVE), mem.(connectionStop := false))
    else if r == LOOP_STOP then Goes(InRun(if mem.stop then END_THREADS else LOOP_FAILED), mem)
    else if r == LOOP_FAILED then Goes(InRun(if mem.failed then END_THREADS else LOOP_READ), mem)
    else if r == LOOP_READ then Goes(InRun(AfterRead(c)), mem)
    else if r == EDIT_LIST then Goes(InRun(UNLOCK_LIST), mem)
    else if r == END_THREADS then Goes(InRun(JOIN_KEEPALIVE), mem.(connectionStop := true))
    else if r == MOVE_LIST then Goes(InRun(UNLOCK_MOVE), mem)
    else if r == CLEAR_CTX then Goes(InRun(UNLOCK_CLEAR_CTX), mem.(ctx := None))
    else if r == CLEAR_STREAM then Goes(InRun(UNLOCK_CLEAR_STREAM), mem.(stream := None))
    else if r == DESTROY_CONTEXT then Goes(InRun(BUMP_GENERATION), mem.(alive := None))
    else if r == BUMP_GENERATION then Goes(InRun(OUTSIDE), mem.(generation := mem.generation + 1))
    else Blocks
  }

  function KeepaliveAct(th: Thread, k: KeepaliveLoc, mem: Memory, c: Choice): Move {
    match k
    case KeepaliveConnection => Goes(if mem.connectionStop then Off else InKeepalive(KeepaliveStop), mem)
    case KeepaliveStop =>
      if mem.stop then Goes(Off, mem)
      else if c == First then Goes(InKeepalive(KeepaliveFail), mem)
      else Goes(InKeepalive(if c == Second then KeepaliveSend else KeepaliveConnection), mem)
    case KeepaliveSent => Goes(InKeepalive(if th.ok then KeepaliveConnection else KeepaliveFail), mem)
    case KeepaliveFail => Goes(InKeepalive(KeepaliveCancel), mem.(failed := true))
    case KeepaliveEnd => Goes(Off, mem.(connectionStop := true))
    case _ => Blocks
  }

  /** A failed Send ends the candidates of one session only, so another may follow. */
  function PumpAct(p: PumpLoc, mem: Memory, c: Choice): Move {
    match p
    case PumpConnection => Goes(if mem.connectionStop then Off else InPump(PumpStop), mem)
    case PumpStop =>
      if mem.stop then Goes(Off, mem) else Goes(InPump(if c == First then PumpConnection else LockIds), mem)
    case CopyIds => Goes(InPump(UnlockIds), mem)
    case PumpNext => Goes(InPump(if c == First then PumpConnection else PumpSend), mem)
    case _ => Blocks
  }

  function SendAct(th: Thread, x: SendLoc, mem: Memory, c: Choice): Thread {
    match x
    case TestStream =>
      if mem.stream.None? then th.(loc := InSend(UnlockWrite), ok := false) else th.(loc := InSend(StartWrite))
    case StartWrite => th.(loc := InSend(Writing), target := mem.stream)
    case Writing => th.(loc := InSend(UnlockWrite), ok := c == First)
    case _ => th
  }

  /** `running` says whether RunOnce is active. */
  function CancelAct(th: Thread, x: CancelLoc, mem: Memory, log: Log, running: bool, c: Choice)
    : (Thread, Memory, Log)
  {
    match x
    case TestCtx => (th.(loc := InCancel(if mem.ctx.None? then UnlockCancel else TryCancel)), mem, log)
    case TryCancel =>
      var live := running && mem.ctx == Some(mem.cycle) && mem.alive == mem.ctx;
      (th.(loc := InCancel(ExchangeArmed)), mem, log.(cancels := log.cancels + [Touch(mem.ctx, live)]))
    case ExchangeArmed =>
      (th.(loc := InCancel(if mem.armed then UnlockCancel else ReadEnvironment)), mem.(armed := true), log)
    case ReadEnvironment => (th.(loc := InCancel(if c == First then UnlockCancel else LoadGeneration)), mem, log)
    case LoadGeneration => (th.(loc := InCancel(StartWatchdog), generation := mem.generation), mem, log)
    case StartWatchdog =>
      (th.(loc := InCancel(UnlockCancel)), mem,
       log.(watchdogs := log.watchdogs + [Watchdog(th.generation, mem.cycle, Sleeping)]))
    case _ => (th, mem, log)
  }

  // ---- Steps ------------------------------------------------------------------------------

  function MoveStep(s: State, t: ThreadId, move: Move): Option<State> {
    var th := At(s, t);
    match move
    case Blocks => None
    case Exits => Some(s.(exited := true))
    case Goes(loc, mem) => Some(s.(threads := s.threads[t := th.(loc := loc)], mem := mem))
  }

  function ActStep(s: State, t: ThreadId, c: Choice): Option<State> {
    var th := At(s, t);
    match th.loc
    case Off => if t.Stopper? then MoveStep(s, t, Goes(InStop, s.mem.(stop := true))) else None
    case InRun(r) => MoveStep(s, t, RunAct(th, r, s.mem, c))
    case InKeepalive(k) => MoveStep(s, t, KeepaliveAct(th, k, s.mem, c))
    case InPump(p) => MoveStep(s, t, PumpAct(p, s.mem, c))
    case InStop => None
    case InSend(x) => Some(s.(threads := s.threads[t := SendAct(th, x, s.mem, c)]))
    case InCancel(x) =>
      var (th', mem, log) := CancelAct(th, x, s.mem, s.log, Running(s), c);
      Some(s.(threads := s.threads[t := th'], mem := mem, log := log))
  }

  /** A step of thread `t`. Locking waits while anyone owns the mutex, the thread itself
      included; unlocking ends the innermost scope. */
  function ThreadStep(s: State, t: ThreadId, c: Choice): Option<State> {
    var th := At(s, t);
    match Code(th.loc)
    case Lock(m, next) =>
      if m in s.owner then None
      else Some(s.(threads := s.threads[t := th.(loc := next, held := th.held + [m])], owner := s.owner[m := t]))
    case Unlock(next) =>
      if th.held == [] then None
      else
        var last := |th.held| - 1;
        Some(s.(threads := s.threads[t := th.(loc := next, held := th.held[..last])],
                owner := s.owner - {th.held[last]}))
    case Call(entry, ret) => Some(s.(threads := s.threads[t := th.(loc := entry, ret := ret)]))
    case Return => Some(s.(threads := s.threads[t := th.(loc := th.ret)]))
    case Spawn(u, entry, next) => Some(s.(threads := s.threads[u := Fresh(entry)][t := th.(loc := next)]))
    case Join(u, next) =>
      if At(s, u).loc == Off then Some(s.(threads := s.threads[t := th.(loc := next)])) else None
    case Act => ActStep(s, t, c)
  }

  /** The poll of a watchdog, load by load; which poll is the last one is open, and so is how
      long logging delays the abort after it. */
  function DogStageAfter(dog: Watchdog, mem: Memory, c: Choice): DogStage {
    match dog.stage
    case Sleeping => if mem.generation == dog.generation then Matched else Gone
    case Matched => if mem.stop then Gone else if c == First then Passed else Sleeping
    case _ => dog.stage
  }

  function WatchdogStep(s: State, k: nat, c: Choice): Option<State> {
    if k >= |s.log.watchdogs| || s.log.watchdogs[k].stage == Gone then None
    else
      var dog := s.log.watchdogs[k];
      if dog.stage == Passed then Some(s.(aborted := Some(Abort(k, ActiveNow(s, dog.cycle), s.mem.stop))))
      else
        var dog' := dog.(stage := DogStageAfter(dog, s.mem, c));
        Some(s.(log := s.log.(watchdogs := s.log.watchdogs[k := dog'])))
  }

  datatype Actor = ThreadActor(t: ThreadId) | WatchdogActor(k: nat)

  type Schedule = seq<(Actor, Choice)>

  predicate Over(s: State) {
    s.exited || s.aborted.Some?
  }

  function Step(s: State, a: Actor, c: Choice): Option<State> {
    if Over(s) then None
    else
      match a
      case ThreadActor(t) => ThreadStep(s, t, c)
      case WatchdogActor(k) => WatchdogStep(s, k, c)
  }

  /** The state a schedule leads to, if every step of it can be taken. */
  function Exec(sched: Schedule): Option<State> {
    if sched == [] then Some(INIT)
    else
      match Exec(sched[..|sched| - 1])
      case None => None
      case Some(s) => Step(s, sched[|sched| - 1].0, sched[|sched| - 1].1)
  }

  lemma ExecNext(sched: Schedule, a: Actor, c: Choice)
    requires Exec(sched).Some?
    ensures Exec(sched + [(a, c)]) == Step(Exec(sched).value, a, c)
  {
    assert (sched + [(a, c)])[..|sched|] == sched;
  }

  /** Every prefix of a schedule can be taken too. */
  lemma {:induction false} PrefixRuns(sched: Schedule, i: nat)
    requires Exec(sched).Some? && i <= |sched|
    ensures Exec(sched[..i]).Some?
    ensures i < |sched| ==> Exec(sched[..i + 1]) == Step(Exec(sched[..i]).value, sched[i].0, sched[i].1)
  {
    hide Step;
    if i < |sched| {
      var before := sched[..|sched| - 1];
      PrefixRuns(before, Min(i, |before|));
      assert before[..Min(i, |before|)] == sched[..Min(i, |before|)];
      if i < |before| {
        assert before[..i + 1] == sched[..i + 1];
      } else {
        assert sched[..i + 1] == sched;
      }
    } else {
      assert sched[..i] == sched;
    }
  }
}
