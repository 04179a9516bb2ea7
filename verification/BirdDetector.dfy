/** The two-state detector of BirdWatcher with its streak counters (bird_watcher.cpp), over
    any sequence of detection results. */
module BirdDetector {
  import opened Common

  datatype Mode = Idle | Alert

  datatype Detector = Detector(mode: Mode, birds: int, noBirds: int)

  const START: Detector := Detector(Idle, 0, 0)

  /** One detection result: the next state, and whether a save is attempted. */
  function Detect(d: Detector, bird: bool, alertFrames: int): (Detector, bool) {
    if d.mode == Idle then
      if bird then (Detector(Alert, 0, 0), false) else (d, false)
    else if bird then
      if d.birds + 1 >= alertFrames then (Detector(Alert, 0, 0), true)
      else (Detector(Alert, d.birds + 1, 0), false)
    else
      if d.noBirds + 1 >= alertFrames then (Detector(Idle, 0, 0), false)
      else (Detector(Alert, 0, d.noBirds + 1), false)
  }

  /** The state before result `n`. */
  function Before(results: seq<bool>, n: nat, alertFrames: int): Detector
    requires n <= |results|
  {
    if n == 0 then START else Detect(Before(results, n - 1, alertFrames), results[n - 1], alertFrames).0
  }

  predicate Attempts(results: seq<bool>, n: nat, alertFrames: int)
    requires n < |results|
  {
    Detect(Before(results, n, alertFrames), results[n], alertFrames).1
  }

  /** Result `n` was seen in Alert and was (or was not) a bird. */
  predicate SeenInAlert(results: seq<bool>, n: nat, alertFrames: int, bird: bool)
    requires n < |results|
  {
    Before(results, n, alertFrames).mode == Alert && results[n] == bird
  }

  predicate ReturnsToIdle(results: seq<bool>, n: nat, alertFrames: int)
    requires n < |results|
  {
    Before(results, n, alertFrames).mode == Alert && Before(results, n + 1, alertFrames).mode == Idle
  }

  /** A threshold below one acts as one: a counter is compared after it was incremented. */
  function Threshold(alertFrames: int): (t: nat)
    ensures t >= 1
  {
    Max(1, alertFrames)
  }

  lemma {:induction false} CounterBounds(results: seq<bool>, n: nat, alertFrames: int)
    requires n <= |results|
    ensures var d := Before(results, n, alertFrames);
            && (d.mode == Idle ==> d.birds == 0 && d.noBirds == 0)
            && (d.birds == 0 || d.noBirds == 0)
            && 0 <= d.birds < Threshold(alertFrames) && 0 <= d.noBirds < Threshold(alertFrames)
  {
    if n > 0 {
      CounterBounds(results, n - 1, alertFrames);
    }
  }

  // ---- In terms of the results alone -------------------------------------------------------

  /** The last bird before `n`, or -1. */
  function LastBird(results: seq<bool>, n: nat): (m: int)
    requires n <= |results|
    ensures -1 <= m < n && (m >= 0 ==> results[m]) && forall k :: m < k < n ==> !results[k]
  {
    if n == 0 then -1 else if results[n - 1] then n - 1 else LastBird(results, n - 1)
  }

  /** Where the run of birds that ends before result `n` begins. */
  function RunStart(results: seq<bool>, n: nat): (a: nat)
    requires n <= |results|
    ensures a <= n && (forall k :: a <= k < n ==> results[k]) && (a > 0 ==> !results[a - 1])
  {
    if n > 0 && results[n - 1] then RunStart(results, n - 1) else n
  }

  /** The last bird before `n` is one of the last `t` results. */
  predicate Recent(results: seq<bool>, n: nat, t: nat)
    requires n <= |results|
  {
    LastBird(results, n) >= 0 && n - LastBird(results, n) <= t
  }

  /** The birds of the run ending before `n` that count: all, except for one that raises the alert. */
  function Counted(results: seq<bool>, n: nat, t: nat): (c: nat)
    requires n <= |results|
  {
    var a := RunStart(results, n);
    if a == n then 0 else n - a - if Recent(results, a, t) then 0 else 1
  }

  lemma CountedNext(results: seq<bool>, n: nat, t: nat)
    requires 0 < n <= |results| && t >= 1
    ensures Counted(results, n, t) ==
            if !results[n - 1] then 0
            else Counted(results, n - 1, t) + if Recent(results, n - 1, t) then 1 else 0
  {
  }

  lemma NextMod(c: nat, t: nat)
    requires t >= 1
    ensures (c + 1) % t == if c % t + 1 < t then c % t + 1 else 0
  {
    var q, r := c / t, c % t;
    assert c == q * t + r;
    if r + 1 < t {
      Quotient(q, r + 1, t, c + 1);
    } else {
      assert c + 1 == (q + 1) * t;
      Quotient(q + 1, 0, t, c + 1);
    }
  }

  lemma Quotient(q: nat, r: nat, t: nat, c: nat)
    requires c == q * t + r && r < t
    ensures c % t == r
  {
    var q', r' := c / t, c % t;
    assert (q - q') * t == q * t - q' * t == r' - r;
    assert (q' - q) * t == r - r';
    if q > q' {
      AtLeastOnce(q - q', t);
    } else if q < q' {
      AtLeastOnce(q' - q, t);
    }
  }

  lemma AtLeastOnce(k: nat, t: nat)
    requires k >= 1
    ensures k * t >= t
  {
  }

  /** The whole state before result `n`, without a recursion over states. */
  lemma {:induction false} StateFromResults(results: seq<bool>, n: nat, alertFrames: int)
    requires n <= |results|
    ensures var t, d := Threshold(alertFrames), Before(results, n, alertFrames);
            && (d.mode == Alert <==> Recent(results, n, t))
            && d.birds == Counted(results, n, t) % t
            && d.noBirds == if d.mode == Alert then n - 1 - LastBird(results, n) else 0
  {
    hide Counted, Detect, Recent;
    var t := Threshold(alertFrames);
    if n == 0 {
      NothingAtFirst(results, t);
    } else {
      StateFromResults(results, n - 1, alertFrames);
      CounterBounds(results, n - 1, alertFrames);
      CountedNext(results, n, t);
      NextMod(Counted(results, n - 1, t), t);
      RecentNext(results, n, t);
      DetectNext(Before(results, n - 1, alertFrames), results[n - 1], alertFrames);
    }
  }

  lemma NothingAtFirst(results: seq<bool>, t: nat)
    ensures Counted(results, 0, t) == 0 && !Recent(results, 0, t)
  {
  }

  lemma RecentNext(results: seq<bool>, n: nat, t: nat)
    requires 0 < n <= |results| && t >= 1
    ensures Recent(results, n, t) <==>
            results[n - 1] || (Recent(results, n - 1, t) && n - LastBird(results, n - 1) <= t)
    ensures Recent(results, n - 1, t) ==> LastBird(results, n - 1) >= 0
    ensures LastBird(results, n) == if results[n - 1] then n - 1 else LastBird(results, n - 1)
  {
  }

  /** One step with the threshold in place of the setting. */
  lemma DetectNext(d: Detector, bird: bool, alertFrames: int)
    requires 0 <= d.birds < Threshold(alertFrames) && 0 <= d.noBirds < Threshold(alertFrames)
    requires d.mode == Idle ==> d.birds == 0 && d.noBirds == 0
    ensures var t, d' := Threshold(alertFrames), Detect(d, bird, alertFrames).0;
            && (d'.mode == Alert <==> bird || (d.mode == Alert && d.noBirds + 1 < t))
            && d'.birds == (if bird && d.mode == Alert && d.birds + 1 < t then d.birds + 1 else 0)
            && d'.noBirds == (if !bird && d.mode == Alert && d.noBirds + 1 < t then d.noBirds + 1 else 0)
  {
  }

  /** Alert holds exactly when one of the last Threshold results is a bird; and it is entered
      exactly when a bird comes in Idle. */
  lemma AlertIff(results: seq<bool>, n: nat, alertFrames: int)
    requires n <= |results|
    ensures Before(results, n, alertFrames).mode == Alert <==>
            exists m :: 0 <= m < n && results[m] && n - m <= (if alertFrames < 1 then 1 else alertFrames)
    ensures n < |results| && Before(results, n, alertFrames).mode == Idle ==>
              (Before(results, n + 1, alertFrames).mode == Alert <==> results[n])
  {
    StateFromResults(results, n, alertFrames);
    if m :| 0 <= m < n && results[m] && n - m <= Threshold(alertFrames) {
      assert m <= LastBird(results, n);
    }
  }

  /** A save is attempted exactly at every Threshold-th bird of an unbroken run, not counting
      its first one if no bird came among the Threshold results before it, because that one
      only raises the alert. `a` is where the run begins. */
  lemma AttemptFromResults(results: seq<bool>, a: nat, n: nat, alertFrames: int)
    requires a <= n < |results| && (forall k :: a <= k < n ==> results[k]) && (a > 0 ==> !results[a - 1])
    ensures var t := if alertFrames < 1 then 1 else alertFrames;
            var raised := !exists m :: 0 <= m < a && results[m] && a - m <= t;
            var birds := n + 1 - a - if raised then 1 else 0;
            Attempts(results, n, alertFrames) <==> results[n] && birds > 0 && birds % t == 0
  {
    hide Counted;
    var t := Threshold(alertFrames);
    StateFromResults(results, n, alertFrames);
    StateFromResults(results, a, alertFrames);
    AlertIff(results, a, alertFrames);
    CountedFrom(results, a, n, t);
    NextMod(Counted(results, n, t), t);
  }

  lemma CountedFrom(results: seq<bool>, a: nat, n: nat, t: nat)
    requires a <= n < |results| && (forall k :: a <= k < n ==> results[k]) && (a > 0 ==> !results[a - 1])
    ensures Counted(results, n, t) == if a == n then 0 else n - a - if Recent(results, a, t) then 0 else 1
    ensures a < n && t >= 1 ==> Recent(results, n, t)
  {
    RunStartIs(results, a, n);
  }

  lemma {:induction false} RunStartIs(results: seq<bool>, a: nat, n: nat)
    requires a <= n <= |results| && (forall k :: a <= k < n ==> results[k]) && (a > 0 ==> !results[a - 1])
    ensures RunStart(results, n) == a
  {
    if a < n {
      RunStartIs(results, a, n - 1);
    }
  }

  /** Alert is left exactly at the Threshold-th result after the last bird. */
  lemma IdleFromResults(results: seq<bool>, n: nat, alertFrames: int)
    requires n < |results|
    ensures var t := if alertFrames < 1 then 1 else alertFrames;
            ReturnsToIdle(results, n, alertFrames) <==>
            n >= t && results[n - t] && forall k :: n - t < k <= n ==> !results[k]
  {
    StateFromResults(results, n, alertFrames);
    StateFromResults(results, n + 1, alertFrames);
  }

  /** How many results up to `n` form an unbroken run of birds in Alert without an attempt. */
  function BirdRun(results: seq<bool>, n: nat, alertFrames: int): (r: nat)
    requires n <= |results|
    ensures r <= n
    ensures forall k :: n - r <= k < n ==>
              SeenInAlert(results, k, alertFrames, true) && !Attempts(results, k, alertFrames)
    ensures r < n ==> !SeenInAlert(results, n - r - 1, alertFrames, true) || Attempts(results, n - r - 1, alertFrames)
  {
    if n > 0 && SeenInAlert(results, n - 1, alertFrames, true) && !Attempts(results, n - 1, alertFrames)
    then 1 + BirdRun(results, n - 1, alertFrames) else 0
  }

  function NoBirdRun(results: seq<bool>, n: nat, alertFrames: int): (r: nat)
    requires n <= |results|
    ensures r <= n
    ensures forall k :: n - r <= k < n ==>
              SeenInAlert(results, k, alertFrames, false) && !ReturnsToIdle(results, k, alertFrames)
    ensures r < n ==>
              || !SeenInAlert(results, n - r - 1, alertFrames, false)
              || ReturnsToIdle(results, n - r - 1, alertFrames)
  {
    if n > 0 && SeenInAlert(results, n - 1, alertFrames, false) && !ReturnsToIdle(results, n - 1, alertFrames)
    then 1 + NoBirdRun(results, n - 1, alertFrames) else 0
  }

  /** The counters are the lengths of those runs. */
  lemma {:induction false} CountersAreRuns(results: seq<bool>, n: nat, alertFrames: int)
    requires n <= |results|
    ensures Before(results, n, alertFrames).birds == BirdRun(results, n, alertFrames)
    ensures Before(results, n, alertFrames).noBirds == NoBirdRun(results, n, alertFrames)
  {
    if n > 0 {
      CountersAreRuns(results, n - 1, alertFrames);
      CounterBounds(results, n - 1, alertFrames);
    }
  }

  /** A save is attempted exactly when the last Threshold results are birds seen in Alert,
      none of which, before this one, closed an earlier attempt. */
  lemma AttemptIff(results: seq<bool>, n: nat, alertFrames: int)
    requires n < |results|
    ensures var t := Threshold(alertFrames);
            Attempts(results, n, alertFrames) <==>
            && n + 1 >= t
            && (forall k :: n + 1 - t <= k <= n ==> SeenInAlert(results, k, alertFrames, true))
            && (forall k :: n + 1 - t <= k < n ==> !Attempts(results, k, alertFrames))
  {
    CountersAreRuns(results, n, alertFrames);
    CounterBounds(results, n, alertFrames);
    var t, r := Threshold(alertFrames), BirdRun(results, n, alertFrames);
    assert Attempts(results, n, alertFrames) <==> SeenInAlert(results, n, alertFrames, true) && r + 1 >= t;
    if Attempts(results, n, alertFrames) {
      assert n + 1 >= t;
      assert forall k :: n + 1 - t <= k < n ==>
               SeenInAlert(results, k, alertFrames, true) && !Attempts(results, k, alertFrames);
    } else if n + 1 >= t && r + 1 < t {
      var k := n - r - 1;
      assert !SeenInAlert(results, k, alertFrames, true) || Attempts(results, k, alertFrames);
    }
  }

  /** Attempts close disjoint runs. */
  lemma AttemptsAreApart(results: seq<bool>, m: nat, n: nat, alertFrames: int)
    requires m < n < |results| && Attempts(results, m, alertFrames) && Attempts(results, n, alertFrames)
    ensures n - m >= Threshold(alertFrames)
  {
    AttemptIff(results, n, alertFrames);
  }

  /** Alert is left exactly after Threshold results in a row, seen in Alert, without a bird. */
  lemma IdleIff(results: seq<bool>, n: nat, alertFrames: int)
    requires n < |results|
    ensures var t := Threshold(alertFrames);
            ReturnsToIdle(results, n, alertFrames) <==>
            n + 1 >= t && forall k :: n + 1 - t <= k <= n ==> SeenInAlert(results, k, alertFrames, false)
  {
    CountersAreRuns(results, n, alertFrames);
    CounterBounds(results, n, alertFrames);
    var t, r := Threshold(alertFrames), NoBirdRun(results, n, alertFrames);
    assert ReturnsToIdle(results, n, alertFrames) <==> SeenInAlert(results, n, alertFrames, false) && r + 1 >= t;
    if ReturnsToIdle(results, n, alertFrames) {
      assert n + 1 >= t;
      assert forall k :: n + 1 - t <= k < n ==> SeenInAlert(results, k, alertFrames, false);
    } else if n + 1 >= t && r + 1 < t {
      var k := n - r - 1;
      assert !SeenInAlert(results, k, alertFrames, false) || ReturnsToIdle(results, k, alertFrames);
      if ReturnsToIdle(results, k, alertFrames) {
        assert !SeenInAlert(results, k + 1, alertFrames, false);
      }
    }
  }

  /** The number of save attempts, and of birds seen in Alert, among the first `n` results. */
  function AttemptCount(results: seq<bool>, n: nat, alertFrames: int): nat
    requires n <= |results|
  {
    if n == 0 then 0
    else AttemptCount(results, n - 1, alertFrames) + if Attempts(results, n - 1, alertFrames) then 1 else 0
  }

  function AlertBirds(results: seq<bool>, n: nat, alertFrames: int): nat
    requires n <= |results|
  {
    if n == 0 then 0
    else AlertBirds(results, n - 1, alertFrames) + if SeenInAlert(results, n - 1, alertFrames, true) then 1 else 0
  }

  lemma TimesSucc(t: int, a: int)
    ensures t * (a + 1) == t * a + t
  {
  }

  /** Every attempt is paid for by Threshold birds of its own. */
  lemma {:induction false} AttemptsArePaidFor(results: seq<bool>, n: nat, alertFrames: int)
    requires n <= |results|
    ensures Threshold(alertFrames) * AttemptCount(results, n, alertFrames) + Before(results, n, alertFrames).birds
            <= AlertBirds(results, n, alertFrames)
  {
    if n > 0 {
      AttemptsArePaidFor(results, n - 1, alertFrames);
      CounterBounds(results, n - 1, alertFrames);
      TimesSucc(Threshold(alertFrames), AttemptCount(results, n - 1, alertFrames));
    }
  }
}
