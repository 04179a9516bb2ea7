/** Whole runs of BirdWatcher: detector, idle throttle and rate gate together
    (bird_watcher.cpp). Times are nanoseconds of the steady clock. */
module BirdRuns {
  import opened Common
  import opened BirdDetector

  const SECOND: int := 1_000_000_000
  const MINUTE: int := 60 * SECOND

  datatype Config = Config(idleInterval: int, alertFrames: int, maxPerMinute: int, minSaveInterval: int)

  /** The fields of the rate gate. */
  datatype Gate = Gate(captureTimes: seq<int>, lastCapture: int, hadCapture: bool)

  /** The fields the worker thread updates. */
  datatype Watch = Watch(detector: Detector, lastIdleCheck: int, gate: Gate)

  const FRESH: Watch := Watch(START, 0, Gate([], 0, false))

  /** A start of the service, or one frame with everything the outside decides about it:
      whether it decodes, whether a bird is found, whether a capture that is allowed gets
      written, and the clock at each place where the code reads it. */
  datatype Input =
    | Start(at: int)
    | Frame(decodes: bool, bird: bool, saves: bool, slotAt: int, gateAt: int, savedAt: int, idleAt: int)

  /** What happened: an inference slot granted, granted while Idle, a capture recorded. */
  datatype Effect = Effect(granted: bool, idleSlot: bool, attempt: bool, recorded: Option<int>)

  const NOTHING: Effect := Effect(false, false, false, None)

  predicate WantsInference(c: Config, w: Watch, now: int) {
    w.detector.mode == Alert || now - w.lastIdleCheck >= c.idleInterval * SECOND
  }

  /** pop_front while the front is more than a minute old. */
  function Purge(times: seq<int>, now: int): seq<int> {
    if times != [] && now - times[0] > MINUTE then Purge(times[1..], now) else times
  }

  /** A negative limit becomes a huge one when it is cast to size_t. */
  function SizeT(limit: int): int {
    if limit < 0 then limit + 0x1_0000_0000_0000_0000 else limit
  }

  predicate GateAllows(c: Config, g: Gate, now: int) {
    && |Purge(g.captureTimes, now)| < SizeT(c.maxPerMinute)
    && !(g.hadCapture && now - g.lastCapture < c.minSaveInterval * SECOND)
  }

  /** MaybeSave: the gate drops old times even when it refuses. */
  function Save(c: Config, g: Gate, saves: bool, gateAt: int, savedAt: int): (Gate, Option<int>) {
    var times := Purge(g.captureTimes, gateAt);
    if GateAllows(c, g, gateAt) && saves then (Gate(times + [savedAt], savedAt, true), Some(savedAt))
    else (g.(captureTimes := times), None)
  }

  function Step(c: Config, w: Watch, i: Input): (Watch, Effect) {
    match i
    case Start(at) =>
      (w.(detector := START, lastIdleCheck := at - c.idleInterval * SECOND), NOTHING)
    case Frame(decodes, bird, saves, slotAt, gateAt, savedAt, idleAt) =>
      if !WantsInference(c, w, slotAt) then (w, NOTHING)
      else
        var idle := w.detector.mode == Idle;
        var w1 := if idle then w.(lastIdleCheck := slotAt) else w;
        if !decodes then (w1, Effect(true, idle, false, None))
        else
          var (d, attempt) := Detect(w.detector, bird, c.alertFrames);
          if attempt then
            var (g, recorded) := Save(c, w.gate, saves, gateAt, savedAt);
            (w1.(detector := d, gate := g), Effect(true, idle, true, recorded))
          else if !idle && d.mode == Idle then
            (w1.(detector := d, lastIdleCheck := idleAt), Effect(true, idle, false, None))
          else
            (w1.(detector := d), Effect(true, idle, false, None))
  }

  function Run(c: Config, inputs: seq<Input>, n: nat): Watch
    requires n <= |inputs|
  {
    if n == 0 then FRESH else Step(c, Run(c, inputs, n - 1), inputs[n - 1]).0
  }

  function EffectOf(c: Config, inputs: seq<Input>, n: nat): Effect
    requires n < |inputs|
  {
    Step(c, Run(c, inputs, n), inputs[n]).1
  }

  function First(i: Input): int {
    if i.Start? then i.at else i.slotAt
  }

  function Last(i: Input): int {
    if i.Start? then i.at else i.idleAt
  }

  /** The clock does not go back. */
  predicate Ordered(inputs: seq<Input>) {
    && (forall i :: 0 <= i < |inputs| && inputs[i].Frame? ==>
          inputs[i].slotAt <= inputs[i].gateAt <= inputs[i].savedAt <= inputs[i].idleAt)
    && (forall i, j :: 0 <= i < j < |inputs| ==> Last(inputs[i]) <= First(inputs[j]))
  }

  // ---- The detector inside the run ------------------------------------------------------

  /** The detection results since the last start, among the first `n` inputs. */
  function Fed(c: Config, inputs: seq<Input>, n: nat): seq<bool>
    requires n <= |inputs|
  {
    if n == 0 || inputs[n - 1].Start? then []
    else if EffectOf(c, inputs, n - 1).granted && inputs[n - 1].decodes
    then Fed(c, inputs, n - 1) + [inputs[n - 1].bird]
    else Fed(c, inputs, n - 1)
  }

  lemma {:induction false} BeforeExtends(results: seq<bool>, bird: bool, n: nat, alertFrames: int)
    requires n <= |results|
    ensures Before(results + [bird], n, alertFrames) == Before(results, n, alertFrames)
  {
    if n > 0 {
      BeforeExtends(results, bird, n - 1, alertFrames);
    }
  }

  lemma DetectorSteps(c: Config, w: Watch, i: Input)
    ensures var (w', effect) := Step(c, w, i);
            && w'.detector == (if i.Start? then START
                               else if effect.granted && i.decodes then Detect(w.detector, i.bird, c.alertFrames).0
                               else w.detector)
            && (effect.attempt <==> i.Frame? && effect.granted && i.decodes &&
                                    Detect(w.detector, i.bird, c.alertFrames).1)
  {
    hide Detect;
  }

  /** On both frame paths the state is the detector's on the results fed to it, and a save is
      attempted exactly when the detector attempts one. */
  lemma {:induction false} DetectorInRun(c: Config, inputs: seq<Input>, n: nat)
    requires n <= |inputs|
    ensures var results := Fed(c, inputs, n);
            Run(c, inputs, n).detector == Before(results, |results|, c.alertFrames)
  {
    hide Step, Detect;
    if n > 0 {
      DetectorInRun(c, inputs, n - 1);
      var results := Fed(c, inputs, n - 1);
      DetectorSteps(c, Run(c, inputs, n - 1), inputs[n - 1]);
      if inputs[n - 1].Frame? {
        BeforeExtends(results, inputs[n - 1].bird, |results|, c.alertFrames);
      }
    }
  }

  lemma AttemptInRun(c: Config, inputs: seq<Input>, n: nat)
    requires n < |inputs|
    ensures var results := Fed(c, inputs, n + 1);
            EffectOf(c, inputs, n).attempt <==>
            && EffectOf(c, inputs, n).granted && inputs[n].Frame? && inputs[n].decodes
            && Attempts(results, |results| - 1, c.alertFrames)
  {
    DetectorInRun(c, inputs, n);
    var before := Fed(c, inputs, n);
    if inputs[n].Frame? {
      BeforeExtends(before, inputs[n].bird, |before|, c.alertFrames);
    }
  }

  // ---- The rate gate --------------------------------------------------------------------

  /** The times of the captures recorded by the first `n` inputs. */
  function Captures(c: Config, inputs: seq<Input>, n: nat): seq<int>
    requires n <= |inputs|
  {
    if n == 0 then [] else Extended(Captures(c, inputs, n - 1), EffectOf(c, inputs, n - 1).recorded)
  }

  predicate Sorted(s: seq<int>) {
    forall i, j :: 0 <= i < j < |s| ==> s[i] <= s[j]
  }

  /** `recent` is what is left of `all` after dropping entries that are over a minute old. */
  predicate RecentPart(all: seq<int>, recent: seq<int>, now: int) {
    |recent| <= |all| && recent == all[|all| - |recent|..] &&
    forall i :: 0 <= i < |all| - |recent| ==> now - all[i] > MINUTE
  }

  /** More than `limit` captures never fit in a minute. */
  predicate Windowed(s: seq<int>, limit: nat) {
    forall i, j :: 0 <= i && i + limit <= j < |s| ==> s[j] - s[i] > MINUTE
  }

  predicate Spaced(s: seq<int>, gap: int) {
    forall i, j :: 0 <= i < j < |s| ==> s[j] - s[i] >= gap * SECOND
  }

  predicate GateInv(c: Config, g: Gate, all: seq<int>, clock: int) {
    && Sorted(all) && (forall i :: 0 <= i < |all| ==> all[i] <= clock)
    && RecentPart(all, g.captureTimes, clock)
    && (g.hadCapture <==> all != []) && (all != [] ==> g.lastCapture == all[|all| - 1])
    && (c.maxPerMinute >= 0 ==> Windowed(all, c.maxPerMinute))
    && Adjacent(all, c.minSaveInterval)
  }

  predicate Adjacent(s: seq<int>, gap: int) {
    forall i :: 0 < i < |s| ==> s[i] - s[i - 1] >= gap * SECOND
  }

  lemma {:induction false} PurgeExact(all: seq<int>, times: seq<int>, now: int)
    requires Sorted(all) && RecentPart(all, times, now)
    ensures RecentPart(all, Purge(times, now), now)
    ensures forall t :: t in Purge(times, now) ==> now - t <= MINUTE
  {
    if times != [] {
      var k := |all| - |times|;
      assert times[0] == all[k];
      if now - times[0] > MINUTE {
        assert times[1..] == all[k + 1..];
        PurgeExact(all, times[1..], now);
      } else {
        assert forall i :: 0 <= i < |times| ==> times[i] == all[k + i];
      }
    }
  }

  /** A capture recorded when fewer than `limit` recent ones were left opens no window with
      more than `limit`. */
  lemma RecordKeepsWindow(all: seq<int>, recent: seq<int>, limit: nat, gateAt: int, savedAt: int)
    requires Windowed(all, limit) && RecentPart(all, recent, gateAt)
    requires |recent| < limit && gateAt <= savedAt
    ensures Windowed(all + [savedAt], limit)
  {
    var all' := all + [savedAt];
    forall i, j | 0 <= i && i + limit <= j < |all'|
      ensures all'[j] - all'[i] > MINUTE
    {
      if j == |all| {
        assert i < |all| - |recent| && gateAt - all[i] > MINUTE;
      } else {
        assert all'[j] == all[j] && all'[i] == all[i];
      }
    }
  }

  lemma RecordKeepsRecent(all: seq<int>, recent: seq<int>, gateAt: int, savedAt: int)
    requires RecentPart(all, recent, gateAt) && gateAt <= savedAt
    ensures RecentPart(all + [savedAt], recent + [savedAt], savedAt)
  {
    var all', recent' := all + [savedAt], recent + [savedAt];
    assert all'[|all'| - |recent'|..] == all[|all| - |recent|..] + [savedAt];
  }

  lemma RecordKeepsOrder(all: seq<int>, gap: int, gateAt: int, savedAt: int)
    requires Sorted(all) && (forall i :: 0 <= i < |all| ==> all[i] <= gateAt) && gateAt <= savedAt
    requires Adjacent(all, gap) && (all == [] || gateAt - all[|all| - 1] >= gap * SECOND)
    ensures Sorted(all + [savedAt]) && Adjacent(all + [savedAt], gap)
    ensures forall i :: 0 <= i < |all + [savedAt]| ==> (all + [savedAt])[i] <= savedAt
  {
  }

  /** Recording a capture the gate allowed, at or after the time the gate looked. */
  lemma RecordKeepsGate(c: Config, g: Gate, all: seq<int>, recent: seq<int>, gateAt: int, savedAt: int)
    requires GateInv(c, g, all, gateAt) && gateAt <= savedAt
    requires RecentPart(all, recent, gateAt) && |recent| < SizeT(c.maxPerMinute)
    requires all == [] || gateAt - all[|all| - 1] >= c.minSaveInterval * SECOND
    ensures GateInv(c, Gate(recent + [savedAt], savedAt, true), all + [savedAt], savedAt)
  {
    hide Windowed, RecentPart, Sorted, Adjacent;
    RecordKeepsRecent(all, recent, gateAt, savedAt);
    RecordKeepsOrder(all, c.minSaveInterval, gateAt, savedAt);
    if c.maxPerMinute >= 0 {
      RecordKeepsWindow(all, recent, c.maxPerMinute, gateAt, savedAt);
    }
  }

  function Extended(all: seq<int>, recorded: Option<int>): seq<int> {
    if recorded.Some? then all + [recorded.value] else all
  }

  lemma SaveKeepsGate(c: Config, g: Gate, all: seq<int>, saves: bool, gateAt: int, savedAt: int)
    requires GateInv(c, g, all, gateAt) && gateAt <= savedAt
    ensures var (g', r) := Save(c, g, saves, gateAt, savedAt);
            GateInv(c, g', Extended(all, r), savedAt)
  {
    PurgeExact(all, g.captureTimes, gateAt);
    if GateAllows(c, g, gateAt) && saves {
      RecordKeepsGate(c, g, all, Purge(g.captureTimes, gateAt), gateAt, savedAt);
    } else {
      LaterKeepsGate(c, g.(captureTimes := Purge(g.captureTimes, gateAt)), all, gateAt, savedAt);
    }
  }

  lemma LaterKeepsGate(c: Config, g: Gate, all: seq<int>, clock: int, later: int)
    requires GateInv(c, g, all, clock) && clock <= later
    ensures GateInv(c, g, all, later)
  {
  }

  lemma StepKeepsGate(c: Config, w: Watch, i: Input, all: seq<int>)
    requires GateInv(c, w.gate, all, First(i))
    requires i.Frame? ==> i.slotAt <= i.gateAt <= i.savedAt <= i.idleAt
    ensures var (w', e) := Step(c, w, i);
            GateInv(c, w'.gate, Extended(all, e.recorded), Last(i))
  {
    hide GateInv, GateAllows, Purge;
    var (w', e) := Step(c, w, i);
    if e.attempt {
      LaterKeepsGate(c, w.gate, all, First(i), i.gateAt);
      SaveKeepsGate(c, w.gate, all, i.saves, i.gateAt, i.savedAt);
      LaterKeepsGate(c, w'.gate, Extended(all, e.recorded), i.savedAt, Last(i));
    } else {
      LaterKeepsGate(c, w.gate, all, First(i), Last(i));
    }
  }

  lemma {:induction false} RunKeepsGate(c: Config, inputs: seq<Input>, n: nat, clock: int)
    requires n <= |inputs| && Ordered(inputs) && (n > 0 ==> Last(inputs[n - 1]) <= clock)
    ensures GateInv(c, Run(c, inputs, n).gate, Captures(c, inputs, n), clock)
  {
    if n > 0 {
      var i := inputs[n - 1];
      RunKeepsGate(c, inputs, n - 1, First(i));
      StepKeepsGate(c, Run(c, inputs, n - 1), i, Captures(c, inputs, n - 1));
      LaterKeepsGate(c, Run(c, inputs, n).gate, Captures(c, inputs, n), Last(i), clock);
    }
  }

  /** The captures that fall in the closed window from `from` to `to`. */
  function InWindow(s: seq<int>, from: int, to: int): set<nat> {
    set i: nat | i < |s| && from <= s[i] <= to
  }

  lemma {:induction false} Least(s: set<nat>) returns (m: nat)
    requires s != {}
    ensures m in s && forall k :: k in s ==> m <= k
  {
    m :| m in s;
    if s != {m} {
      var m' := Least(s - {m});
      assert forall k :: k in s ==> k == m || k in s - {m};
      if m' < m {
        m := m';
      }
    }
  }

  lemma WindowCount(s: seq<int>, limit: nat, from: int)
    requires Windowed(s, limit)
    ensures |InWindow(s, from, from + MINUTE)| <= limit
  {
    var hits := InWindow(s, from, from + MINUTE);
    if hits != {} {
      var p := Least(hits);
      var span := Span(p, limit);
      forall k | k in hits
        ensures k in span
      {
        assert p <= k && s[k] - s[p] <= MINUTE;
      }
      SubsetSize(hits, span);
    }
  }

  /** What the purge leaves are the captures of the last minute. */
  lemma WindowIsRecent(all: seq<int>, recent: seq<int>, now: int)
    requires Sorted(all) && (forall i :: 0 <= i < |all| ==> all[i] <= now)
    requires RecentPart(all, recent, now) && forall t :: t in recent ==> now - t <= MINUTE
    ensures |InWindow(all, now - MINUTE, now)| == |recent|
  {
    var k: nat := |all| - |recent|;
    assert forall i :: k <= i < |all| ==> all[i] == recent[i - k] && all[i] in recent;
    assert InWindow(all, now - MINUTE, now) == Span(k, |recent|);
  }

  /** A capture is recorded exactly when a save is attempted and goes through, fewer captures
      than the limit fall in the minute before the gate looks, and the last one is at least the
      minimum gap back; and it is recorded with the time after the save. */
  lemma RecordedIff(c: Config, inputs: seq<Input>, n: nat)
    requires n < |inputs| && Ordered(inputs) && inputs[n].Frame?
    ensures var i, all := inputs[n], Captures(c, inputs, n);
            var limit := if c.maxPerMinute < 0 then c.maxPerMinute + 0x1_0000_0000_0000_0000 else c.maxPerMinute;
            var allowed :=
              && |InWindow(all, i.gateAt - 60_000_000_000, i.gateAt)| < limit
              && (all == [] || i.gateAt - all[|all| - 1] >= c.minSaveInterval * 1_000_000_000);
            EffectOf(c, inputs, n).recorded ==
            if EffectOf(c, inputs, n).attempt && i.saves && allowed then Some(i.savedAt) else None
  {
    hide Windowed, Adjacent, Purge, InWindow, Detect, WantsInference;
    var i, all, g := inputs[n], Captures(c, inputs, n), Run(c, inputs, n).gate;
    RunKeepsGate(c, inputs, n, i.gateAt);
    PurgeExact(all, g.captureTimes, i.gateAt);
    WindowIsRecent(all, Purge(g.captureTimes, i.gateAt), i.gateAt);
    hide Run, Captures, RecentPart;
  }

  /** However the run goes, no closed window of a minute holds more captures than the limit. */
  lemma AtMostLimitPerMinute(c: Config, inputs: seq<Input>, from: int)
    requires Ordered(inputs) && c.maxPerMinute >= 0
    ensures |InWindow(Captures(c, inputs, |inputs|), from, from + MINUTE)| <= c.maxPerMinute
  {
    var n := |inputs|;
    RunKeepsGate(c, inputs, n, if n > 0 then Last(inputs[n - 1]) else 0);
    WindowCount(Captures(c, inputs, n), c.maxPerMinute, from);
  }

  /** And any two captures are at least the minimum gap apart, restarts included. */
  lemma CapturesAreSpaced(c: Config, inputs: seq<Input>)
    requires Ordered(inputs)
    ensures Sorted(Captures(c, inputs, |inputs|))
    ensures Spaced(Captures(c, inputs, |inputs|), c.minSaveInterval)
  {
    var n := |inputs|;
    RunKeepsGate(c, inputs, n, if n > 0 then Last(inputs[n - 1]) else 0);
    var s := Captures(c, inputs, n);
    forall i, j | 0 <= i < j < |s|
      ensures s[j] - s[i] >= c.minSaveInterval * SECOND
    {
      assert s[j] - s[j - 1] >= c.minSaveInterval * SECOND;
      assert i < j - 1 ==> s[i] <= s[j - 1];
    }
  }

  /** A negative limit does not limit: the cast makes the count test pass for every deque
      that fits in memory. */
  lemma NegativeLimitNeverRefuses(c: Config, g: Gate, now: int)
    requires -0x8000_0000 <= c.maxPerMinute < 0 && |g.captureTimes| < 0x8000_0000_0000_0000
    ensures GateAllows(c, g, now) <==> !(g.hadCapture && now - g.lastCapture < c.minSaveInterval * SECOND)
  {
    PurgeShrinks(g.captureTimes, now);
  }

  lemma {:induction false} PurgeShrinks(times: seq<int>, now: int)
    ensures |Purge(times, now)| <= |times|
  {
    if times != [] && now - times[0] > MINUTE {
      PurgeShrinks(times[1..], now);
    }
  }

  // ---- The idle throttle ----------------------------------------------------------------

  /** The times of inference slots granted in Idle since the last start. */
  function IdleSlots(c: Config, inputs: seq<Input>, n: nat): seq<int>
    requires n <= |inputs|
  {
    if n == 0 || inputs[n - 1].Start? then []
    else IdleSlots(c, inputs, n - 1) + if EffectOf(c, inputs, n - 1).idleSlot then [inputs[n - 1].slotAt] else []
  }

  /** The times since the last start from which the idle interval runs anew: slots granted in
      Idle and returns to Idle. */
  function Restarts(c: Config, inputs: seq<Input>, n: nat): seq<int>
    requires n <= |inputs|
  {
    if n == 0 || inputs[n - 1].Start? then []
    else
      var before, after := Run(c, inputs, n - 1).detector.mode, Run(c, inputs, n).detector.mode;
      if EffectOf(c, inputs, n - 1).idleSlot then Restarts(c, inputs, n - 1) + [inputs[n - 1].slotAt]
      else if before == Alert && after == Idle then Restarts(c, inputs, n - 1) + [inputs[n - 1].idleAt]
      else Restarts(c, inputs, n - 1)
  }

  /** The time of the last start. */
  function StartedAt(inputs: seq<Input>, n: nat): Option<int>
    requires n <= |inputs|
  {
    if n == 0 then None
    else if inputs[n - 1].Start? then Some(inputs[n - 1].at)
    else StartedAt(inputs, n - 1)
  }

  /** The time the idle interval runs from. */
  predicate CheckedFrom(c: Config, last: int, restarts: seq<int>, started: Option<int>, clock: int) {
    && (forall i :: 0 <= i < |restarts| ==> restarts[i] <= last)
    && last == (if restarts != [] then restarts[|restarts| - 1]
                else if started.Some? then started.value - c.idleInterval * SECOND else 0)
    && (restarts != [] ==> last <= clock)
    && (started.Some? ==> started.value <= clock)
    && (restarts != [] && started.None? ==> last >= c.idleInterval * SECOND)
  }

  lemma RestartSteps(c: Config, w: Watch, i: Input)
    requires i.Frame? && i.slotAt <= i.idleAt
    ensures var (w', effect) := Step(c, w, i);
            && (effect.idleSlot <==> w.detector.mode == Idle && i.slotAt - w.lastIdleCheck >= c.idleInterval * SECOND)
            && (effect.idleSlot ==> w'.lastIdleCheck == i.slotAt)
            && (!effect.idleSlot ==>
                  && (w.detector.mode == Idle ==> w'.detector.mode == Idle)
                  && w'.lastIdleCheck ==
                  if w.detector.mode == Alert && w'.detector.mode == Idle then i.idleAt else w.lastIdleCheck)
  {
  }

  lemma {:induction false} RestartsTrack(c: Config, inputs: seq<Input>, n: nat, clock: int)
    requires n <= |inputs| && Ordered(inputs) && (n > 0 ==> Last(inputs[n - 1]) <= clock)
    ensures CheckedFrom(c, Run(c, inputs, n).lastIdleCheck, Restarts(c, inputs, n), StartedAt(inputs, n), clock)
    ensures Restarts(c, inputs, n) == [] ==> Run(c, inputs, n).detector.mode == Idle
  {
    if n > 0 && inputs[n - 1].Frame? {
      hide Step;
      RestartsTrack(c, inputs, n - 1, First(inputs[n - 1]));
      RestartSteps(c, Run(c, inputs, n - 1), inputs[n - 1]);
    }
  }

  /** A frame gets an inference slot in Alert always, and in Idle exactly when the idle interval
      has passed since every slot granted in Idle and every return to Idle since the last start;
      so the first frame after a start gets one. Without a start the clock's origin counts. */
  lemma GrantedIff(c: Config, inputs: seq<Input>, n: nat)
    requires n < |inputs| && Ordered(inputs) && inputs[n].Frame?
    ensures var now, interval := inputs[n].slotAt, c.idleInterval * 1_000_000_000;
            EffectOf(c, inputs, n).granted <==>
            || Run(c, inputs, n).detector.mode == Alert
            || ((forall t :: t in Restarts(c, inputs, n) ==> now - t >= interval)
                && (StartedAt(inputs, n).None? ==> now >= interval))
  {
    RestartsTrack(c, inputs, n, inputs[n].slotAt);
    GrantedNow(c, Run(c, inputs, n), inputs[n]);
    hide Step, Run, Restarts, StartedAt;
    var restarts := Restarts(c, inputs, n);
    if restarts != [] {
      assert restarts[|restarts| - 1] in restarts;
    }
  }

  lemma GrantedNow(c: Config, w: Watch, i: Input)
    requires i.Frame?
    ensures Step(c, w, i).1.granted <==>
            w.detector.mode == Alert || i.slotAt - w.lastIdleCheck >= c.idleInterval * SECOND
  {
  }

  lemma SlotWaits(c: Config, w: Watch, i: Input)
    requires i.Frame? && i.slotAt <= i.idleAt
    ensures var (w', effect) := Step(c, w, i);
            if effect.idleSlot
            then i.slotAt - w.lastIdleCheck >= c.idleInterval * SECOND && w'.lastIdleCheck == i.slotAt
            else w'.lastIdleCheck == w.lastIdleCheck || w'.lastIdleCheck == i.idleAt
  {
  }

  lemma SpacedExtends(s: seq<int>, gap: int, last: int, at: int)
    requires Spaced(s, gap) && (forall t :: t in s ==> t <= last) && at - last >= gap * SECOND
    ensures Spaced(s + [at], gap)
  {
    assert forall i :: 0 <= i < |s| ==> s[i] in s;
  }

  /** Any two of them are at least the idle interval apart, also across Alert periods and
      frames that fail to decode. */
  lemma {:induction false} IdleSlotsAreSpaced(c: Config, inputs: seq<Input>, n: nat, clock: int)
    requires n <= |inputs| && Ordered(inputs) && (n > 0 ==> Last(inputs[n - 1]) <= clock)
    ensures Spaced(IdleSlots(c, inputs, n), c.idleInterval)
    ensures forall t :: t in IdleSlots(c, inputs, n) ==> t <= Run(c, inputs, n).lastIdleCheck <= clock
  {
    if n > 0 && inputs[n - 1].Frame? {
      hide Step, Spaced;
      IdleSlotsAreSpaced(c, inputs, n - 1, First(inputs[n - 1]));
      SlotWaits(c, Run(c, inputs, n - 1), inputs[n - 1]);
      if EffectOf(c, inputs, n - 1).idleSlot {
        SpacedExtends(IdleSlots(c, inputs, n - 1), c.idleInterval, Run(c, inputs, n - 1).lastIdleCheck,
                      inputs[n - 1].slotAt);
      }
    }
  }
}
