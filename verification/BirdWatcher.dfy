/** BirdWatcher as the worker thread runs it (bird_watcher.cpp), against the run functions.
    The H.264 decoder, the detector and the capture writer are outside; the callers pass
    what they answer and what the clock shows at each reading. */
module BirdWatcher {
  import opened Common
  import opened BirdDetector
  import opened BirdRuns

  datatype Picture = Picture(rgb: seq<byte>, width: int, height: int)

  /** The colours of `n` RGBA pixels without their alpha bytes. */
  function WithoutAlpha(rgba: seq<byte>, n: nat): seq<byte>
    requires |rgba| >= 4 * n
  {
    if n == 0 then [] else WithoutAlpha(rgba, n - 1) + rgba[4 * n - 4..4 * n - 1]
  }

  lemma {:induction false} WithoutAlphaAt(rgba: seq<byte>, n: nat, i: nat, k: nat)
    requires |rgba| >= 4 * n && i < n && k < 3
    ensures |WithoutAlpha(rgba, n)| == 3 * n && WithoutAlpha(rgba, n)[3 * i + k] == rgba[4 * i + k]
  {
    if i < n - 1 {
      WithoutAlphaAt(rgba, n - 1, i, k);
    } else if n > 1 {
      WithoutAlphaAt(rgba, n - 1, 0, 0);
    }
  }

  lemma {:induction false} RunExtends(c: Config, inputs: seq<Input>, i: Input, n: nat)
    requires n <= |inputs|
    ensures Run(c, inputs + [i], n) == Run(c, inputs, n)
  {
    if n > 0 {
      RunExtends(c, inputs, i, n - 1);
    }
  }

  class Watcher {
    const config: Config
    const detect: Picture -> bool
    var state: Mode
    var consecutiveBirdFrames: int
    var consecutiveNoBirdFrames: int
    var lastIdleCheck: int
    var captureTimes: seq<int>
    var lastCaptureTime: int
    var hadCapture: bool
    ghost var history: seq<Input>

    ghost function Now(): Watch
      reads this
    {
      Watch(Detector(state, consecutiveBirdFrames, consecutiveNoBirdFrames), lastIdleCheck,
            Gate(captureTimes, lastCaptureTime, hadCapture))
    }

    /** The fields are those the run so far leads to. */
    ghost predicate Valid()
      reads this
    {
      Now() == Run(config, history, |history|)
    }

    constructor (config: Config, detect: Picture -> bool)
      ensures Valid() && history == [] && this.config == config && this.detect == detect
    {
      this.config, this.detect := config, detect;
      state, consecutiveBirdFrames, consecutiveNoBirdFrames, lastIdleCheck := Idle, 0, 0, 0;
      captureTimes, lastCaptureTime, hadCapture := [], 0, false;
      history := [];
    }

    method StartWatching(at: int)
      requires Valid()
      modifies this
      ensures Valid() && history == old(history) + [Start(at)]
    {
      RunExtends(config, history, Start(at), |history|);
      lastIdleCheck := at - config.idleInterval * SECOND;
      state := Idle;
      consecutiveBirdFrames := 0;
      consecutiveNoBirdFrames := 0;
      history := history + [Start(at)];
    }

    method ShouldRunInferenceNow(now: int) returns (run: bool)
      modifies this`lastIdleCheck
      ensures run == WantsInference(config, old(Now()), now)
      ensures Now() == if run && state == Idle then old(Now()).(lastIdleCheck := now) else old(Now())
    {
      if state == Alert {
        return true;
      }
      if now - lastIdleCheck >= config.idleInterval * SECOND {
        lastIdleCheck := now;
        return true;
      }
      return false;
    }

    method RateGateAllowsSave(now: int) returns (allows: bool)
      modifies this`captureTimes
      ensures allows == GateAllows(config, old(Now()).gate, now)
      ensures captureTimes == Purge(old(captureTimes), now)
    {
      while captureTimes != [] && now - captureTimes[0] > MINUTE
        invariant Purge(captureTimes, now) == Purge(old(captureTimes), now)
        decreases |captureTimes|
      {
        captureTimes := captureTimes[1..];
      }
      if |captureTimes| >= SizeT(config.maxPerMinute) {
        return false;
      }
      if hadCapture && now - lastCaptureTime < config.minSaveInterval * SECOND {
        return false;
      }
      return true;
    }

    /** Nothing is recorded unless the capture was written to the end. */
    method SaveCapture(saves: bool, savedAt: int)
      modifies this`hadCapture, this`lastCaptureTime, this`captureTimes
      ensures Now().gate == if saves then Gate(old(captureTimes) + [savedAt], savedAt, true) else old(Now()).gate
    {
      if !saves {
        return;
      }
      hadCapture := true;
      lastCaptureTime := savedAt;
      captureTimes := captureTimes + [savedAt];
    }

    method MaybeSave(saves: bool, gateAt: int, savedAt: int)
      modifies this`hadCapture, this`lastCaptureTime, this`captureTimes
      ensures Now().gate == Save(config, old(Now()).gate, saves, gateAt, savedAt).0
    {
      var allows := RateGateAllowsSave(gateAt);
      if !allows {
        return;
      }
      SaveCapture(saves, savedAt);
    }

    /** The transition both frame paths share, from the detection result on. */
    method Transition(bird: bool, saves: bool, gateAt: int, savedAt: int, idleAt: int)
      modifies this`state, this`consecutiveBirdFrames, this`consecutiveNoBirdFrames, this`lastIdleCheck,
               this`hadCapture, this`lastCaptureTime, this`captureTimes
      ensures var w := old(Now());
              var (d, attempt) := Detect(w.detector, bird, config.alertFrames);
              Now() == Watch(d,
                             if w.detector.mode == Alert && d.mode == Idle then idleAt else w.lastIdleCheck,
                             if attempt then Save(config, w.gate, saves, gateAt, savedAt).0 else w.gate)
    {
      if state == Idle {
        if bird {
          state := Alert;
          consecutiveBirdFrames := 0;
          consecutiveNoBirdFrames := 0;
        }
        return;
      }
      if bird {
        consecutiveBirdFrames := consecutiveBirdFrames + 1;
        consecutiveNoBirdFrames := 0;
        if consecutiveBirdFrames >= config.alertFrames {
          MaybeSave(saves, gateAt, savedAt);
          consecutiveBirdFrames := 0;
        }
      } else {
        consecutiveBirdFrames := 0;
        consecutiveNoBirdFrames := consecutiveNoBirdFrames + 1;
        if consecutiveNoBirdFrames >= config.alertFrames {
          state := Idle;
          consecutiveNoBirdFrames := 0;
          lastIdleCheck := idleAt;
        }
      }
    }

    /** The H.264 path: the decoder is always fed; `decoded` is the picture it yields when one
        is wanted. */
    method ProcessQueuedFrame(decoded: Option<Picture>, saves: bool, slotAt: int, gateAt: int, savedAt: int,
                              idleAt: int)
      requires Valid()
      modifies this
      ensures Valid()
      ensures var bird := decoded.Some? && detect(decoded.value);
              history == old(history) + [Frame(decoded.Some?, bird, saves, slotAt, gateAt, savedAt, idleAt)]
    {
      ghost var seen := decoded.Some? && detect(decoded.value);
      ghost var f := Frame(decoded.Some?, seen, saves, slotAt, gateAt, savedAt, idleAt);
      RunExtends(config, history, f, |history|);
      history := history + [f];
      var wantRgb := ShouldRunInferenceNow(slotAt);
      if decoded.None? {
        return;
      }
      if !wantRgb {
        return;
      }
      var bird := detect(decoded.value);
      Transition(bird, saves, gateAt, savedAt, idleAt);
    }

    /** The GPU path: the same run as a queued frame that decodes to the same picture. The frame
        is read only when inference is due, and then to its declared end; one that does not hold
        the declared picture takes the slot like a frame that does not decode, and then faults. */
    method ProcessRgbaFrame(rgba: seq<byte>, width: int, height: int, saves: bool, slotAt: int, gateAt: int,
                            savedAt: int, idleAt: int)
      returns (outcome: Result<(), Fault>)
      requires Valid()
      modifies this
      ensures Valid()
      ensures var n := width * height;
              var holds := n >= 0 && |rgba| >= 4 * n;
              var bird := holds && detect(Picture(WithoutAlpha(rgba, n), width, height));
              history == old(history) + [Frame(holds, bird, saves, slotAt, gateAt, savedAt, idleAt)]
      ensures outcome == if !WantsInference(config, old(Now()), slotAt) then Success(())
                         else if width * height < 0 then Failure(LengthError)
                         else if |rgba| < 4 * (width * height) then Failure(OutOfBounds)
                         else Success(())
    {
      ghost var holds := width * height >= 0 && |rgba| >= 4 * (width * height);
      ghost var seen := holds && detect(Picture(WithoutAlpha(rgba, width * height), width, height));
      ghost var f := Frame(holds, seen, saves, slotAt, gateAt, savedAt, idleAt);
      RunExtends(config, history, f, |history|);
      history := history + [f];
      var wanted := ShouldRunInferenceNow(slotAt);
      if !wanted {
        return Success(());
      }
      if width * height < 0 {
        return Failure(LengthError);
      }
      if |rgba| < 4 * (width * height) {
        return Failure(OutOfBounds);
      }
      var rgb := StripAlpha(rgba, width * height);
      var bird := detect(Picture(rgb, width, height));
      Transition(bird, saves, gateAt, savedAt, idleAt);
      return Success(());
    }
  }

  method StripPixel(rgba: seq<byte>, from: nat, out: array<byte>, to: nat)
    requires from + 4 <= |rgba| && to + 3 <= out.Length
    modifies out
    ensures out[..to + 3] == old(out[..to]) + rgba[from..from + 3]
  {
    out[to] := rgba[from];
    out[to + 1] := rgba[from + 1];
    out[to + 2] := rgba[from + 2];
  }

  method StripAlpha(rgba: seq<byte>, n: nat) returns (rgb: seq<byte>)
    requires |rgba| >= 4 * n
    ensures rgb == WithoutAlpha(rgba, n)
  {
    var out := new byte[3 * n];
    for i := 0 to n
      invariant out[..3 * i] == WithoutAlpha(rgba, i)
    {
      StripPixel(rgba, 4 * i, out, 3 * i);
    }
    rgb := out[..];
    assert out[..] == out[..3 * n];
  }
}
