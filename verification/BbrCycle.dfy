/** What the BBR machine does in which order and when: the gains of PROBE_BW, the windows of the bandwidth filter and
    the rounds of the plateau test. */
module BbrCycle {
  import opened BbrModes
  import T = BbrStartup

  // ---------------------------------------------------------------- the phases of PROBE_BW

  /** The pacing gain of the `n`-th phase: one that probes, one that drains what the probe queued, six that cruise. */
  function PhaseGain(n: nat): real {
    if n % 8 == 0 then 1.25 else if n % 8 == 1 then 0.75 else 1.0
  }

  /** The machine is in the `n`-th phase of a PROBE_BW entered at `t0`. */
  ghost predicate InPhase(p: Params, m: Machine, t0: nat, n: nat) {
    && m.mode == PROBE_BW && m.pacingGain == PhaseGain(n) && m.cycleIndex == (n + 1) % 8
    && m.phaseEnd == t0 + (n + 1) * p.baseRtt
  }

  /** A phase begins at an acknowledgement later than the entry and one base round-trip time per phase, this one
      included; restarts leave the phase alone. */
  function PhaseAfter(p: Params, t0: nat, n: nat, e: Event): nat {
    if e.Acked? && e.ack.now > t0 + (n + 1) * p.baseRtt then n + 1 else n
  }

  function PhasesAfter(p: Params, t0: nat, n: nat, es: seq<Event>): nat
    decreases |es|
  {
    if es == [] then n else PhasesAfter(p, t0, PhaseAfter(p, t0, n, es[0]), es[1..])
  }

  /** PROBE_BW is entered in its first phase. */
  lemma EntryIsFirstPhase(p: Params, m: Machine, e: AckEvent)
    requires MachineInv(m) && m.mode != PROBE_BW && OnAck(p, m, e).mode == PROBE_BW
    ensures InPhase(p, OnAck(p, m, e), e.now, 0)
  {
    hide BestOf, MaxOf, UpdateFilter;
  }

  lemma OneMorePhase(n: nat, rtt: nat)
    ensures (n + 2) * rtt == (n + 1) * rtt + rtt
  {
  }

  lemma PhaseKept(p: Params, m: Machine, t0: nat, n: nat, e: Event)
    requires MachineInv(m) && InPhase(p, m, t0, n)
    ensures InPhase(p, OnEvent(p, m, e), t0, PhaseAfter(p, t0, n, e))
  {
    hide BestOf, MaxOf, UpdateFilter, ClearFilter, InFlight;
    OneMorePhase(n, p.baseRtt);
    NextGain(m, n);
    NextIndex(n);
  }

  lemma NextIndex(n: nat)
    ensures ((n + 1) % 8 + 1) % 8 == (n + 2) % 8
  {
  }

  lemma NextGain(m: Machine, n: nat)
    requires m.cycleIndex == (n + 1) % 8
    ensures m.cycleIndex < 8 && PACING_GAIN_CYCLE[m.cycleIndex] == PhaseGain(n + 1)
  {
  }

  /** Over any run from the entry on, restarts included, the phases follow each other in order, none skipped, each with
      its gain, at most one per acknowledgement. */
  lemma {:induction false} PhasesInOrder(p: Params, m: Machine, t0: nat, n: nat, es: seq<Event>)
    requires MachineInv(m) && InPhase(p, m, t0, n)
    ensures InPhase(p, OnEvents(p, m, es), t0, PhasesAfter(p, t0, n, es))
    decreases |es|
  {
    hide OnEvent, PhaseAfter, InPhase;
    if es == [] {
    } else {
      OnEventInv(p, m, es[0]);
      PhaseKept(p, m, t0, n, es[0]);
      PhasesInOrder(p, OnEvent(p, m, es[0]), t0, PhaseAfter(p, t0, n, es[0]), es[1..]);
    }
  }

  /** So in every run that enters PROBE_BW with the acknowledgement `e` the gain, `es` later, is the one of the phase
      that the times of the acknowledgements since then make it. */
  lemma GainsFollowTheCycle(p: Params, before: seq<Event>, e: AckEvent, es: seq<Event>)
    requires OnEvents(p, InitMachine(), before).mode != PROBE_BW
    requires OnAck(p, OnEvents(p, InitMachine(), before), e).mode == PROBE_BW
    ensures MachineInv(OnAck(p, OnEvents(p, InitMachine(), before), e))
    ensures var m := OnEvents(p, OnAck(p, OnEvents(p, InitMachine(), before), e), es);
      m.mode == PROBE_BW && m.pacingGain == PhaseGain(PhasesAfter(p, e.now, 0, es)) && m.cwndGain == 2.0
  {
    hide OnAck, OnEvents;
    var entered := OnEvents(p, InitMachine(), before);
    OnAckInv(p, entered, e);
    EntryIsFirstPhase(p, entered, e);
    PhasesInOrder(p, OnAck(p, entered, e), e.now, 0, es);
    ModesOnlyAdvance(p, OnAck(p, entered, e), es);
    ProbeWindowGain(OnEvents(p, OnAck(p, entered, e), es));
  }

  lemma ProbeWindowGain(m: Machine)
    requires MachineInv(m) && m.mode == PROBE_BW
    ensures m.cwndGain == 2.0
  {
  }

  function SumOfGains(n: nat, k: nat): real
    decreases k
  {
    if k == 0 then 0.0 else PhaseGain(n) + SumOfGains(n + 1, k - 1)
  }

  lemma {:induction false} SumWithLast(n: nat, k: nat)
    ensures SumOfGains(n, k + 1) == SumOfGains(n, k) + PhaseGain(n + k)
    decreases k
  {
    hide PhaseGain;
    if k == 0 {
      assert SumOfGains(n + 1, 0) == 0.0;
    } else {
      SumWithLast(n + 1, k - 1);
    }
  }

  lemma FirstCycle()
    ensures SumOfGains(0, 8) == 8.0
  {
    assert SumOfGains(4, 4) == 4.0 by { assert SumOfGains(6, 2) == 2.0; }
    assert SumOfGains(2, 6) == 6.0;
  }

  /** Any eight phases in a row pace at the estimated bandwidth on average: what one of them probes, another drains. */
  lemma {:induction false} CycleIsBalanced(n: nat)
    ensures SumOfGains(n, 8) == 8.0
  {
    if n == 0 {
      FirstCycle();
    } else {
      CycleIsBalanced(n - 1);
      SumWithLast(n - 1, 8);
      assert SumOfGains(n - 1, 9) == PhaseGain(n - 1) + SumOfGains(n, 8);
    }
  }

  // ---------------------------------------------------------------- the windows of the filter

  /** A window closes with the first sample later than one base round-trip time for each window so far, this one included. */
  function WindowAfter(p: Params, n: nat, e: Event): nat {
    if e.Acked? && e.ack.now > (n + 1) * p.baseRtt then n + 1 else n
  }

  function WindowsAfter(p: Params, n: nat, es: seq<Event>): nat
    decreases |es|
  {
    if es == [] then n else WindowsAfter(p, WindowAfter(p, n, es[0]), es[1..])
  }

  /** `n` windows are closed. */
  ghost predicate Rotated(p: Params, f: Filter, ws: seq<seq<real>>, n: nat) {
    f.windowEnd == n * p.baseRtt && f.index == n % WINDOWS && |ws| == n + 1
  }

  lemma RotatesNext(p: Params, m: Machine, ws: seq<seq<real>>, n: nat, e: Event)
    requires MachineInv(m) && Rotated(p, m.filter, ws, n)
    ensures Rotated(p, OnEvent(p, m, e).filter, HistoryStep(p, m, ws, e), WindowAfter(p, n, e))
  {
    hide OnAck, MaxOf;
    if e.Acked? {
      OnAckInv(p, m, e.ack);
      OneMoreWindow(n, p.baseRtt);
    }
  }

  lemma OneMoreWindow(n: nat, rtt: nat)
    ensures (n + 1) * rtt == n * rtt + rtt && (n % WINDOWS + 1) % WINDOWS == (n + 1) % WINDOWS
  {
  }

  lemma {:induction false} RotatesOverRuns(p: Params, m: Machine, ws: seq<seq<real>>, n: nat, es: seq<Event>)
    requires MachineInv(m) && Rotated(p, m.filter, ws, n)
    ensures Rotated(p, OnEvents(p, m, es).filter, HistoryOf(p, m, ws, es), WindowsAfter(p, n, es))
    decreases |es|
  {
    hide OnEvent, HistoryStep, WindowAfter, Rotated;
    if es == [] {
    } else {
      OnEventInv(p, m, es[0]);
      HasWindows(p, m.filter, ws, n);
      RotatesNext(p, m, ws, n, es[0]);
      RotatesOverRuns(p, OnEvent(p, m, es[0]), HistoryStep(p, m, ws, es[0]), WindowAfter(p, n, es[0]), es[1..]);
    }
  }

  lemma HasWindows(p: Params, f: Filter, ws: seq<seq<real>>, n: nat)
    requires Rotated(p, f, ws, n)
    ensures |ws| > 0
  {
  }

  /** In every run the windows close one at a time, the n-th at the first acknowledgement later than n base round-trip
      times that finds the ones before it closed, and the slots are used in turn. */
  lemma WindowsFollowTheClock(p: Params, es: seq<Event>)
    ensures var m, n := OnEvents(p, InitMachine(), es), WindowsAfter(p, 0, es);
      m.filter.windowEnd == n * p.baseRtt && m.filter.index == n % WINDOWS && |HistoryOf(p, InitMachine(), [[]], es)| == n + 1
  {
    hide OnEvents, HistoryOf, WindowsAfter;
    RotatesOverRuns(p, InitMachine(), [[]], 0, es);
  }

  // ---------------------------------------------------------------- the rounds of the plateau test

  predicate UpTo(e: Event, t: nat) { e.Acked? ==> e.ack.now <= t }

  /** The round is armed for acknowledgements later than `t`. */
  predicate Armed(m: Machine, t: nat) { !m.plateau.pipeFilled && !m.rttPassed && m.rttMark == t }

  lemma StaysArmed(p: Params, m: Machine, t: nat, e: Event)
    requires MachineInv(m) && Armed(m, t) && UpTo(e, t)
    ensures Armed(OnEvent(p, m, e), t)
  {
    hide BestOf, MaxOf, UpdateFilter, ClearFilter, InFlight;
  }

  lemma {:induction false} ArmedOverRuns(p: Params, m: Machine, t: nat, es: seq<Event>)
    requires MachineInv(m) && Armed(m, t) && forall e :: e in es ==> UpTo(e, t)
    ensures Armed(OnEvents(p, m, es), t)
    decreases |es|
  {
    hide OnEvent, Armed, UpTo;
    if es == [] {
    } else {
      assert es[0] in es;
      OnEventInv(p, m, es[0]);
      StaysArmed(p, m, t, es[0]);
      ArmedOverRuns(p, OnEvent(p, m, es[0]), t, es[1..]);
    }
  }

  lemma Arms(p: Params, m: Machine, a: AckEvent)
    requires MachineInv(m) && !m.plateau.pipeFilled && m.rttPassed
    ensures Armed(OnAck(p, m, a), a.now + p.baseRtt)
  {
    hide BestOf, MaxOf, UpdateFilter, ClearFilter, InFlight;
  }

  /** After a round, or at the start, the next acknowledgement starts a round trip, and the round after it is
      taken by the first acknowledgement later than a base round-trip time after that one, and by none before. */
  lemma RoundsTakeARoundTrip(p: Params, m: Machine, a: AckEvent, es: seq<Event>, e: AckEvent)
    requires MachineInv(m) && !m.plateau.pipeFilled && m.rttPassed
    requires forall x :: x in es ==> UpTo(x, a.now + p.baseRtt)
    ensures MachineInv(OnAck(p, m, a)) && MachineInv(OnEvents(p, OnAck(p, m, a), es))
    ensures !T.TakesRound(m, Acked(a))
    ensures T.TakesRound(OnEvents(p, OnAck(p, m, a), es), Acked(e)) <==> e.now > a.now + p.baseRtt
    ensures T.TakesRound(OnEvents(p, OnAck(p, m, a), es), Acked(e)) ==>
      OnAck(p, OnEvents(p, OnAck(p, m, a), es), e).rttPassed
  {
    hide OnAck, OnEvents;
    OnAckInv(p, m, a);
    ModesOnlyAdvance(p, OnAck(p, m, a), es);
    Arms(p, m, a);
    ArmedOverRuns(p, OnAck(p, m, a), a.now + p.baseRtt, es);
    if T.TakesRound(OnEvents(p, OnAck(p, m, a), es), Acked(e)) {
      RoundResets(p, OnEvents(p, OnAck(p, m, a), es), e);
    }
  }

  lemma RoundResets(p: Params, m: Machine, e: AckEvent)
    requires MachineInv(m) && T.TakesRound(m, Acked(e))
    ensures OnAck(p, m, e).rttPassed
  {
    hide BestOf, MaxOf, UpdateFilter, ClearFilter, InFlight;
  }
}
