/** The BBR mode machine: the ten-window bandwidth filter, plateau detection, and the
    STARTUP, DRAIN and PROBE_BW modes. Bandwidth is a real number. */
module BbrModes {

  const WINDOWS: nat := 10
  const PACING_GAIN_CYCLE: seq<real> := [1.25, 0.75, 1.0, 1.0, 1.0, 1.0, 1.0, 1.0]

  function Larger(a: real, b: real): real { if b > a then b else a }

  // ---------------------------------------------------------------- the bandwidth filter

  datatype Filter = Filter(slots: seq<real>, current: seq<real>, index: nat, windowEnd: nat)
  {
    predicate Valid() { |slots| == WINDOWS && index < WINDOWS }
  }

  function InitFilter(): Filter { Filter(seq(WINDOWS, _ => 0.0), [], 0, 0) }

  /** The largest sample of a window that has some. */
  function MaxOf(w: seq<real>): real
    requires w != []
  {
    if |w| == 1 then w[0] else Larger(MaxOf(w[..|w|-1]), w[|w|-1])
  }

  /** The largest slot, or zero if none is positive. */
  function BestOf(slots: seq<real>): real {
    if slots == [] then 0.0 else Larger(BestOf(slots[..|slots|-1]), slots[|slots|-1])
  }

  function UpdateFilter(f: Filter, bw: real, now: nat, baseRtt: nat): Filter
    requires f.Valid()
  {
    var current := f.current + [bw];
    var slots := f.slots[f.index := MaxOf(current)];
    if now > f.windowEnd + baseRtt
    then Filter(slots, [], (f.index + 1) % WINDOWS, f.windowEnd + baseRtt)
    else Filter(slots, current, f.index, f.windowEnd)
  }

  /** Restarting the flow's parameters clears the slots, and only them. */
  function ClearFilter(f: Filter): Filter {
    f.(slots := seq(WINDOWS, _ => 0.0))
  }

  // The history: all windows of samples, the last one still open.

  function Peak(ws: seq<seq<real>>, i: int): real {
    if 0 <= i < |ws| && ws[i] != [] then MaxOf(ws[i]) else 0.0
  }

  /** The slot that holds the window `j` before the current one. */
  function SlotBefore(index: nat, j: nat): nat
    requires j <= WINDOWS
  {
    (index + WINDOWS - j) % WINDOWS
  }

  /** The slots other than the current one hold the peaks of the nine windows before it. */
  ghost predicate Tracks(f: Filter, ws: seq<seq<real>>) {
    && f.Valid()
    && |ws| > 0 && f.current == ws[|ws|-1]
    && forall j :: 1 <= j < WINDOWS ==> f.slots[SlotBefore(f.index, j)] == Peak(ws, |ws| - 1 - j)
  }

  function Landed(ws: seq<seq<real>>, bw: real): seq<seq<real>>
    requires |ws| > 0
  {
    ws[|ws|-1 := ws[|ws|-1] + [bw]]
  }

  function HistoryAfter(f: Filter, ws: seq<seq<real>>, bw: real, now: nat, baseRtt: nat): seq<seq<real>>
    requires |ws| > 0
  {
    if now > f.windowEnd + baseRtt then Landed(ws, bw) + [[]] else Landed(ws, bw)
  }

  /** `b` is the maximum of all samples in the ten windows up to and including the last one of `ws`
      (zero if there is no positive sample). */
  ghost predicate IsRecentMax(b: real, ws: seq<seq<real>>) {
    && b >= 0.0
    && (forall i, s :: |ws| - 10 <= i < |ws| && i >= 0 && s in ws[i] ==> s <= b)
    && (b == 0.0 || exists i, s :: |ws| - 10 <= i < |ws| && i >= 0 && s in ws[i] && s == b)
  }

  lemma {:induction false} MaxOfIsMax(w: seq<real>)
    requires w != []
    ensures MaxOf(w) in w
    ensures forall s :: s in w ==> s <= MaxOf(w)
    decreases |w|
  {
    if |w| > 1 {
      var init := w[..|w|-1];
      MaxOfIsMax(init);
      assert w == init + [w[|w|-1]];
    }
  }

  lemma {:induction false} BestOfIsMax(slots: seq<real>)
    ensures BestOf(slots) >= 0.0
    ensures forall i :: 0 <= i < |slots| ==> slots[i] <= BestOf(slots)
    ensures BestOf(slots) == 0.0 || BestOf(slots) in slots
    decreases |slots|
  {
    if slots == [] {
    } else {
      BestOfIsMax(slots[..|slots|-1]);
    }
  }

  /** If every slot is the peak of one of the last ten windows and each of those has its slot, then the
      best slot is the largest recent sample. */
  lemma BestIsRecentMax(slots: seq<real>, at: nat, ws: seq<seq<real>>)
    requires |slots| == WINDOWS && at < WINDOWS
    requires forall j :: 0 <= j < WINDOWS ==> slots[SlotBefore(at, j)] == Peak(ws, |ws| - 1 - j)
    ensures IsRecentMax(BestOf(slots), ws)
  {
    hide BestOf, MaxOf;
    BestOfIsMax(slots);
    var b := BestOf(slots);
    forall i, s | |ws| - WINDOWS <= i < |ws| && i >= 0 && s in ws[i] ensures s <= b {
      var j := |ws| - 1 - i;
      assert slots[SlotBefore(at, j)] == Peak(ws, i);
      MaxOfIsMax(ws[i]);
    }
    if b != 0.0 {
      var p :| 0 <= p < WINDOWS && slots[p] == b;
      var j := (at + WINDOWS - p) % WINDOWS;
      assert SlotBefore(at, j) == p;
      var i := |ws| - 1 - j;
      assert Peak(ws, i) == b;
      MaxOfIsMax(ws[i]);
    }
  }

  lemma PeakUnchanged(ws: seq<seq<real>>, ws': seq<seq<real>>, i: int)
    requires i < |ws| && i < |ws'|
    requires i >= 0 ==> ws[i] == ws'[i]
    ensures Peak(ws, i) == Peak(ws', i)
  {
  }

  /** Right after every update, the filter's best bandwidth is the maximum of all samples in the ten most
      recent windows, counting the one the sample landed in: across rotation, overwriting and stale slots. */
  lemma FilterRefinesHistory(f: Filter, ws: seq<seq<real>>, bw: real, now: nat, baseRtt: nat)
    requires Tracks(f, ws)
    ensures var f' := UpdateFilter(f, bw, now, baseRtt);
      Tracks(f', HistoryAfter(f, ws, bw, now, baseRtt)) && IsRecentMax(BestOf(f'.slots), Landed(ws, bw))
  {
    hide BestOf, MaxOf, IsRecentMax;
    var f', landed := UpdateFilter(f, bw, now, baseRtt), Landed(ws, bw);
    forall j | 0 <= j < WINDOWS
      ensures f'.slots[SlotBefore(f.index, j)] == Peak(landed, |landed| - 1 - j)
    {
      if j == 0 {
        assert SlotBefore(f.index, j) == f.index;
      } else {
        assert SlotBefore(f.index, j) != f.index;
        PeakUnchanged(landed, ws, |ws| - 1 - j);
      }
    }
    BestIsRecentMax(f'.slots, f.index, landed);
    var ws' := HistoryAfter(f, ws, bw, now, baseRtt);
    if now > f.windowEnd + baseRtt {
      forall j | 1 <= j < WINDOWS
        ensures f'.slots[SlotBefore(f'.index, j)] == Peak(ws', |ws'| - 1 - j)
      {
        assert SlotBefore(f'.index, j) == SlotBefore(f.index, j - 1);
        PeakUnchanged(ws', landed, |ws'| - 1 - j);
      }
    }
  }

  /** The history after a restart: the closed windows are forgotten. */
  function Forgotten(ws: seq<seq<real>>): seq<seq<real>>
    requires |ws| > 0
  {
    seq(|ws| - 1, _ => []) + [ws[|ws|-1]]
  }

  /** Clearing forgets every closed window, while the open one comes back with the next sample. */
  lemma ClearForgetsClosedWindows(f: Filter, ws: seq<seq<real>>)
    requires Tracks(f, ws)
    ensures Tracks(ClearFilter(f), Forgotten(ws))
  {
  }

  lemma FreshFilterTracks()
    ensures Tracks(InitFilter(), [[]])
  {
    assert forall i :: 0 <= i < WINDOWS ==> InitFilter().slots[i] == 0.0;
  }

  // ---------------------------------------------------------------- the modes

  datatype Mode = STARTUP | DRAIN | PROBE_BW

  /** The plateau test: the bandwidth level to beat, the rounds it has stood, the verdict. */
  datatype Plateau = Plateau(fullBandwidth: real, count: nat, pipeFilled: bool)

  datatype Machine = Machine(
    filter: Filter, mode: Mode, pacingGain: real, cwndGain: real, cycleIndex: nat, phaseEnd: nat,
    plateau: Plateau, rttMark: nat, rttPassed: bool)
  {
    predicate Valid() { filter.Valid() && cycleIndex < 8 }
  }

  /** Fixed parameters of the flow, and the context of one acknowledgement. */
  datatype Params = Params(mss: nat, baseRtt: nat)
  datatype AckEvent = AckEvent(now: nat, bw: real, inFlightRaw: nat)

  function InitMachine(): (m: Machine)
    ensures MachineInv(m)
  {
    Machine(InitFilter(), STARTUP, 2.89, 2.89, 4, 0, Plateau(0.0, 0, false), 0, true)
  }

  function GetBestBw(m: Machine): real { BestOf(m.filter.slots) }

  /** The window size, in bytes rounded down, for the best bandwidth known. */
  function InFlight(p: Params, m: Machine, gain: real): int {
    var estimatedBdp := GetBestBw(m) * (p.baseRtt / 1000) as real / 8.0;
    var quanta := p.mss as real;
    if m.mode == PROBE_BW && m.cycleIndex == 0
    then (gain * estimatedBdp + quanta + (2 * p.mss) as real).Floor
    else (gain * estimatedBdp + quanta).Floor
  }

  function CheckCyclePhase(p: Params, m: Machine, now: nat): Machine
    requires m.Valid()
  {
    if m.mode == PROBE_BW && now > m.phaseEnd then
      m.(phaseEnd := m.phaseEnd + p.baseRtt,
         pacingGain := PACING_GAIN_CYCLE[m.cycleIndex],
         cycleIndex := (m.cycleIndex + 1) % 8)
    else m
  }

  function RTTPassed(p: Params, m: Machine, now: nat): Machine {
    if m.rttPassed then m.(rttMark := now + p.baseRtt, rttPassed := false)
    else if now > m.rttMark then m.(rttPassed := true)
    else m
  }

  /** One round of the plateau test with best bandwidth `best`. */
  function PlateauRound(pl: Plateau, best: real): Plateau {
    if best >= pl.fullBandwidth * 1.25 then Plateau(best, 0, pl.pipeFilled)
    else Plateau(pl.fullBandwidth, pl.count + 1, pl.pipeFilled || pl.count + 1 >= 3)
  }

  function CheckFullPipe(p: Params, m: Machine, now: nat): Machine {
    if m.plateau.pipeFilled then m
    else
      var m1 := RTTPassed(p, m, now);
      if !m1.rttPassed then m1 else m1.(plateau := PlateauRound(m1.plateau, GetBestBw(m1)))
  }

  function EnterDrain(m: Machine): Machine {
    if m.mode == STARTUP && m.plateau.pipeFilled
    then m.(mode := DRAIN, pacingGain := 0.35, cwndGain := 2.89)
    else m
  }

  function CheckDrain(p: Params, m: Machine, now: nat, inFlightRaw: nat): Machine {
    var m1 := EnterDrain(m);
    if m1.mode == DRAIN && inFlightRaw <= InFlight(p, m1, 1.0) then
      m1.(mode := PROBE_BW, pacingGain := PACING_GAIN_CYCLE[0], cycleIndex := 1, cwndGain := 2.0,
          phaseEnd := now + p.baseRtt)
    else m1
  }

  /** What an acknowledgement does to the machine. */
  function OnAck(p: Params, m: Machine, e: AckEvent): Machine
    requires m.Valid()
  {
    var m1 := m.(filter := UpdateFilter(m.filter, e.bw, e.now, p.baseRtt));
    CheckDrain(p, CheckFullPipe(p, CheckCyclePhase(p, m1, e.now), e.now), e.now, e.inFlightRaw)
  }

  function Rank(mode: Mode): nat {
    match mode case STARTUP => 0 case DRAIN => 1 case PROBE_BW => 2
  }

  ghost predicate MachineInv(m: Machine) {
    && m.Valid()
    && (m.mode == STARTUP <==> !m.plateau.pipeFilled)
    && (!m.plateau.pipeFilled ==> m.plateau.count < 3)
    && (m.mode == STARTUP ==> m.pacingGain == 2.89)
    && (m.mode == DRAIN ==> m.pacingGain == 0.35)
    && (m.mode == PROBE_BW ==> m.pacingGain == PACING_GAIN_CYCLE[(m.cycleIndex + 7) % 8])
    && m.cwndGain == if m.mode == PROBE_BW then 2.0 else 2.89
  }

  lemma OnAckInv(p: Params, m: Machine, e: AckEvent)
    requires MachineInv(m)
    ensures MachineInv(OnAck(p, m, e))
    ensures Rank(m.mode) <= Rank(OnAck(p, m, e).mode)
    ensures m.plateau.pipeFilled ==> OnAck(p, m, e).plateau == m.plateau
    ensures OnAck(p, m, e).filter == UpdateFilter(m.filter, e.bw, e.now, p.baseRtt)
  {
    hide BestOf, MaxOf;
  }

  /** What happens to the machine: an acknowledgement, or a restart of the flow by a timeout. */
  datatype Event = Acked(ack: AckEvent) | Restarted

  function OnEvent(p: Params, m: Machine, e: Event): Machine
    requires m.Valid()
  {
    match e
    case Acked(ack) => OnAck(p, m, ack)
    case Restarted => m.(filter := ClearFilter(m.filter))
  }

  lemma OnEventInv(p: Params, m: Machine, e: Event)
    requires MachineInv(m)
    ensures MachineInv(OnEvent(p, m, e))
    ensures Rank(m.mode) <= Rank(OnEvent(p, m, e).mode)
    ensures m.plateau.pipeFilled ==> OnEvent(p, m, e).plateau == m.plateau
  {
    hide OnAck;
    if e.Acked? {
      OnAckInv(p, m, e.ack);
    }
  }

  function OnEvents(p: Params, m: Machine, es: seq<Event>): (m': Machine)
    requires MachineInv(m)
    ensures MachineInv(m')
    decreases |es|
  {
    if es == [] then m else OnEventInv(p, m, es[0]); OnEvents(p, OnEvent(p, m, es[0]), es[1..])
  }

  /** Over any run, restarts included, the mode only moves STARTUP to DRAIN to PROBE_BW, it leaves STARTUP exactly
      when the plateau is found, and both gains are those of the mode and, in PROBE_BW, of the cycle position. */
  lemma {:induction false} ModesOnlyAdvance(p: Params, m: Machine, es: seq<Event>)
    requires MachineInv(m)
    ensures MachineInv(OnEvents(p, m, es))
    ensures Rank(m.mode) <= Rank(OnEvents(p, m, es).mode)
    ensures m.plateau.pipeFilled ==> OnEvents(p, m, es).plateau == m.plateau
    decreases |es|
  {
    hide OnEvent;
    if es == [] {
    } else {
      OnEventInv(p, m, es[0]);
      ModesOnlyAdvance(p, OnEvent(p, m, es[0]), es[1..]);
    }
  }

  function HistoryStep(p: Params, m: Machine, ws: seq<seq<real>>, e: Event): (ws': seq<seq<real>>)
    requires |ws| > 0
    ensures |ws'| > 0
  {
    match e
    case Acked(ack) => HistoryAfter(m.filter, ws, ack.bw, ack.now, p.baseRtt)
    case Restarted => Forgotten(ws)
  }

  /** The windows of samples after a run, the closed ones emptied by each restart. */
  function HistoryOf(p: Params, m: Machine, ws: seq<seq<real>>, es: seq<Event>): (ws': seq<seq<real>>)
    requires MachineInv(m) && |ws| > 0
    ensures |ws'| > 0
    decreases |es|
  {
    if es == [] then ws
    else
      OnEventInv(p, m, es[0]);
      HistoryOf(p, OnEvent(p, m, es[0]), HistoryStep(p, m, ws, es[0]), es[1..])
  }

  lemma EventTracks(p: Params, m: Machine, ws: seq<seq<real>>, e: Event)
    requires MachineInv(m) && Tracks(m.filter, ws)
    ensures Tracks(OnEvent(p, m, e).filter, HistoryStep(p, m, ws, e))
  {
    hide OnAck, IsRecentMax, UpdateFilter, BestOf, Tracks, HistoryAfter, ClearFilter, Forgotten;
    assert |ws| > 0 by { TracksSome(m.filter, ws); }
    match e
    case Acked(ack) =>
      OnAckInv(p, m, ack);
      FilterRefinesHistory(m.filter, ws, ack.bw, ack.now, p.baseRtt);
    case Restarted => ClearForgetsClosedWindows(m.filter, ws);
  }

  lemma TracksSome(f: Filter, ws: seq<seq<real>>)
    requires Tracks(f, ws)
    ensures |ws| > 0
  {
  }

  /** After any run, restarts included, the next acknowledgement leaves the best bandwidth equal to the largest
      sample not forgotten of the ten windows that end with the one its own sample landed in. */
  lemma {:induction false} BestBwIsRecentMax(p: Params, m: Machine, ws: seq<seq<real>>, es: seq<Event>, e: AckEvent)
    requires MachineInv(m) && Tracks(m.filter, ws)
    ensures MachineInv(OnEvents(p, m, es))
    ensures IsRecentMax(GetBestBw(OnAck(p, OnEvents(p, m, es), e)), Landed(HistoryOf(p, m, ws, es), e.bw))
    decreases |es|
  {
    hide OnAck, OnEvent, IsRecentMax, UpdateFilter, BestOf, HistoryStep;
    ModesOnlyAdvance(p, m, es);
    if es == [] {
      OnAckInv(p, m, e);
      FilterRefinesHistory(m.filter, ws, e.bw, e.now, p.baseRtt);
    } else {
      OnEventInv(p, m, es[0]);
      EventTracks(p, m, ws, es[0]);
      BestBwIsRecentMax(p, OnEvent(p, m, es[0]), HistoryStep(p, m, ws, es[0]), es[1..], e);
    }
  }

  /** DRAIN is left, or passed through at once, exactly when the bytes in flight fit the estimated window. */
  lemma DrainEndsIff(p: Params, m: Machine, now: nat, inFlightRaw: nat)
    ensures CheckDrain(p, m, now, inFlightRaw).mode == PROBE_BW <==>
      || m.mode == PROBE_BW
      || ((m.mode == DRAIN || m.plateau.pipeFilled)
          && inFlightRaw as real <= GetBestBw(m) * (p.baseRtt / 1000) as real / 8.0 + p.mss as real)
  {
    hide BestOf;
    var x := 1.0 * (GetBestBw(m) * (p.baseRtt / 1000) as real / 8.0) + p.mss as real;
    assert inFlightRaw <= x.Floor <==> inFlightRaw as real <= x;
  }
}
