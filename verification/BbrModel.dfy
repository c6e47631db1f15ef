/** The BBR mode machine as an object: ten array slots, the samples of the open window, and the mode fields. */
module BbrModel {
  import opened BbrModes

  class BBRModel {
    const params: Params
    const slots: array<real>
    var currentWindow: seq<real>
    var slotIndex: nat
    var rttWindowEnd: nat
    var mode: Mode
    var pacingGain: real
    var cwndGain: real
    var cycleIndex: nat
    var phaseWindowEnd: nat
    var fullBandwidth: real
    var fullBandwidthCount: nat
    var isPipeFilled: bool
    var lastRttStartup: nat
    var rttPassed: bool

    ghost predicate Valid()
      reads this
    {
      slots.Length == WINDOWS && slotIndex < WINDOWS && cycleIndex < 8
    }

    ghost function View(): Machine
      reads this, slots
    {
      Machine(Filter(slots[..], currentWindow, slotIndex, rttWindowEnd), mode, pacingGain, cwndGain, cycleIndex,
        phaseWindowEnd, Plateau(fullBandwidth, fullBandwidthCount, isPipeFilled), lastRttStartup, rttPassed)
    }

    constructor (params: Params)
      ensures Valid() && fresh(slots) && this.params == params && View() == InitMachine()
    {
      this.params := params;
      slots := new real[WINDOWS](_ => 0.0);
      currentWindow, slotIndex, rttWindowEnd := [], 0, 0;
      mode, pacingGain, cwndGain, cycleIndex, phaseWindowEnd := STARTUP, 2.89, 2.89, 4, 0;
      fullBandwidth, fullBandwidthCount, isPipeFilled := 0.0, 0, false;
      lastRttStartup, rttPassed := 0, true;
      new;
      assert slots[..] == InitFilter().slots;
    }

    /** Restarting the flow zeroes the slots. */
    method ClearSlots()
      requires Valid()
      modifies slots
      ensures Valid() && View() == OnEvent(params, old(View()), Restarted)
    {
      for i := 0 to WINDOWS
        invariant forall j :: 0 <= j < i ==> slots[j] == 0.0
      {
        slots[i] := 0.0;
      }
      assert slots[..] == seq(WINDOWS, _ => 0.0);
    }

    method BestBw() returns (best: real)
      requires Valid()
      ensures best == GetBestBw(View())
    {
      best := 0.0;
      for i := 0 to WINDOWS
        invariant best == BestOf(slots[..i])
      {
        assert slots[..i+1][..i] == slots[..i];
        if slots[i] > best {
          best := slots[i];
        }
      }
      assert slots[..WINDOWS] == slots[..];
    }

    method LargestSample() returns (largest: real)
      requires currentWindow != []
      ensures largest == MaxOf(currentWindow)
    {
      largest := currentWindow[0];
      for i := 1 to |currentWindow|
        invariant largest == MaxOf(currentWindow[..i])
      {
        assert currentWindow[..i+1][..i] == currentWindow[..i];
        if largest < currentWindow[i] {
          largest := currentWindow[i];
        }
      }
      assert currentWindow[..|currentWindow|] == currentWindow;
    }

    method UpdateBwModel(bw: real, now: nat)
      requires Valid()
      modifies this, slots
      ensures Valid()
      ensures View() == old(View()).(filter := UpdateFilter(old(View()).filter, bw, now, params.baseRtt))
    {
      currentWindow := currentWindow + [bw];
      var largest := LargestSample();
      slots[slotIndex] := largest;
      assert slots[..] == old(slots[..])[slotIndex := largest];
      if now > rttWindowEnd + params.baseRtt {
        slotIndex := slotIndex + 1;
        slotIndex := slotIndex % WINDOWS;
        currentWindow := [];
        rttWindowEnd := rttWindowEnd + params.baseRtt;
      }
    }

    method IsNextCyclePhase(now: nat) returns (isFullLength: bool)
      requires Valid()
      modifies this`phaseWindowEnd
      ensures isFullLength == (now > old(phaseWindowEnd))
      ensures phaseWindowEnd == old(phaseWindowEnd) + if isFullLength then params.baseRtt else 0
    {
      isFullLength := false;
      if now > phaseWindowEnd {
        isFullLength := true;
        phaseWindowEnd := phaseWindowEnd + params.baseRtt;
      }
    }

    method CyclePhase(now: nat)
      requires Valid()
      modifies this
      ensures Valid() && View() == CheckCyclePhase(params, old(View()), now)
    {
      if mode == PROBE_BW {
        var next := IsNextCyclePhase(now);
        if next {
          pacingGain := PACING_GAIN_CYCLE[cycleIndex];
          cycleIndex := (cycleIndex + 1) % 8;
        }
      }
    }

    method RttHasPassed(now: nat) returns (passed: bool)
      requires Valid()
      modifies this
      ensures Valid() && View() == RTTPassed(params, old(View()), now) && passed == rttPassed
    {
      if rttPassed {
        lastRttStartup := now + params.baseRtt;
        rttPassed := false;
      } else if now > lastRttStartup {
        rttPassed := true;
      }
      return rttPassed;
    }

    method FullPipe(now: nat)
      requires Valid()
      modifies this
      ensures Valid() && View() == CheckFullPipe(params, old(View()), now)
    {
      if isPipeFilled {
        return;
      }
      var passed := RttHasPassed(now);
      if !passed {
        return;
      }
      var best := BestBw();
      if best >= fullBandwidth * 1.25 {
        fullBandwidth := best;
        fullBandwidthCount := 0;
        return;
      }
      fullBandwidthCount := fullBandwidthCount + 1;
      if fullBandwidthCount >= 3 {
        isPipeFilled := true;
      }
    }

    method Drain(now: nat, inFlightRaw: nat)
      requires Valid()
      modifies this
      ensures Valid() && View() == CheckDrain(params, old(View()), now, inFlightRaw)
    {
      if mode == STARTUP && isPipeFilled {
        mode, pacingGain, cwndGain := DRAIN, 0.35, 2.89;
      }
      if mode == DRAIN {
        var best := BestBw();
        var window := 1.0 * (best * (params.baseRtt / 1000) as real / 8.0) + params.mss as real;
        if inFlightRaw <= window.Floor {
          mode := PROBE_BW;
          cycleIndex := 0;
          pacingGain := PACING_GAIN_CYCLE[cycleIndex];
          cycleIndex := (cycleIndex + 1) % 8;
          cwndGain := 2.0;
          phaseWindowEnd := now + params.baseRtt;
        }
      }
    }

    /** The bandwidth and mode part of processing an acknowledgement. */
    method ProcessSample(e: AckEvent)
      requires Valid()
      modifies this, slots
      ensures Valid() && View() == OnAck(params, old(View()), e)
    {
      hide CheckCyclePhase, CheckFullPipe, CheckDrain, UpdateFilter;
      UpdateBwModel(e.bw, e.now);
      CyclePhase(e.now);
      FullPipe(e.now);
      Drain(e.now, e.inFlightRaw);
    }
  }
}
