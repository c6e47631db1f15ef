/** States of the BBR transport in which the source is silent for good. */
module BbrStall {
  import opened Basics
  import opened BbrTypes
  import opened BbrSender
  import opened BbrProtocol
  import opened BbrSafety
  import opened BbrOnce
  import K = BbrSink

  /** With no retransmission pending and no room for a new packet nothing is sent. */
  lemma SendsNothing(cfg: Config, s: Sender, clock: Clock)
    requires !s.rtxPending && !CanSendNew(cfg, s)
    ensures SendPackets(cfg, s, clock) == s
  {
    hide OutstandingBytes;
  }

  // ---------------------------------------------------------------- everything was sent once

  /** Everything was sent, no retransmission is pending, and only acknowledgements are in flight. */
  ghost predicate Stuck(cfg: Config, st: State) {
    && !st.src.rtxPending && st.src.highestSent >= cfg.flowSize
    && forall m :: m in st.net ==> m.Ack?
  }

  lemma StuckAck(cfg: Config, st: State, m: Msg, clock: Clock, permits: nat)
    requires cfg.Valid() && Inv(cfg, st) && Stuck(cfg, st) && m in st.net && m.Ack?
    ensures var r := ReceivePacket(cfg, st.src.(permits := permits), m, clock);
      r.Some? && !r.value.rtxPending && r.value.wire == [] && r.value.highestSent == st.src.highestSent
  {
    hide MarkReceived, SendPackets, MsgOk, OutstandingBytes;
    var s := ReduceUnacked(st.src.(permits := permits), cfg.mss);
    assert MsgOk(cfg, m, st.hist, st.src.highestSent) && HistoryInv(cfg, st.sink, st.hist, st.src.highestSent);
    ReceiveCopiesInv(cfg, st, s);
    MarkReceivedInv(cfg, s, m, st.sink, st.hist);
    AckSent(cfg, m, st.sink, st.hist, st.src.highestSent);
    MarkKeepsQuiet(cfg, s, m.seqno, m.ackno);
    var s1 := MarkReceived(cfg, s, m.seqno, m.ackno).value;
    SendsNothing(cfg, s1.(lastAcked := m.ackno), clock);
    assert s1.(highestSent := if m.ackno >= s1.highestSent then m.ackno else s1.highestSent, lastAcked := m.ackno)
      == s1.(lastAcked := m.ackno);
  }

  lemma NothingOnTheWire(net: multiset<Msg>)
    ensures net + WireMsgs([]) == net
  {
  }

  lemma StuckNext(cfg: Config, st: State, step: Step)
    requires cfg.Valid() && Inv(cfg, st) && Stuck(cfg, st) && Enabled(st, step) && Next(cfg, st, step).Some?
    ensures var st' := Next(cfg, st, step).value;
      Stuck(cfg, st') && st'.sink == st.sink && st'.hist.got == st.hist.got && TransmittedBy(cfg, st, step) == []
  {
    hide Next, TransmittedBy, Stuck, Inv;
    match step
    case Start(clock, permits) => StuckSend(cfg, st, step);
    case PacedSend(clock, permits) => StuckSend(cfg, st, step);
    case Feedback(m, clock, permits) => StuckFeedback(cfg, st, m, clock, permits);
    case _ => StuckNetwork(cfg, st, step);
  }

  lemma StuckSend(cfg: Config, st: State, step: Step)
    requires cfg.Valid() && Inv(cfg, st) && Stuck(cfg, st) && (step.Start? || step.PacedSend?)
    ensures var st' := Next(cfg, st, step).value;
      Stuck(cfg, st') && st'.sink == st.sink && st'.hist.got == st.hist.got && TransmittedBy(cfg, st, step) == []
  {
    hide SendPackets, SenderInv, HistoryInv, NetInv, WireMsgs;
    SendsNothing(cfg, st.src.(permits := step.permits, maxCwnd := cfg.bdp, cwnd := cfg.bdp), step.clock);
    SendsNothing(cfg, st.src.(permits := step.permits), step.clock);
    NothingOnTheWire(st.net);
  }

  lemma StuckFeedback(cfg: Config, st: State, m: Msg, clock: Clock, permits: nat)
    requires cfg.Valid() && Inv(cfg, st) && Stuck(cfg, st) && m in st.net
    ensures m.Ack? && Next(cfg, st, Feedback(m, clock, permits)).Some?
    ensures var step := Feedback(m, clock, permits);
      var st' := Next(cfg, st, step).value;
      Stuck(cfg, st') && st'.sink == st.sink && st'.hist.got == st.hist.got && TransmittedBy(cfg, st, step) == []
  {
    hide ReceivePacket, SenderInv, HistoryInv, NetInv, WireMsgs;
    StuckAck(cfg, st, m, clock, permits);
    NothingOnTheWire(st.net - multiset{m});
    assert forall m' :: m' in st.net - multiset{m} ==> m' in st.net;
  }

  lemma StuckNetwork(cfg: Config, st: State, step: Step)
    requires cfg.Valid() && Stuck(cfg, st) && Enabled(st, step) && !step.Start? && !step.PacedSend? && !step.Feedback?
    ensures var st' := Next(cfg, st, step).value;
      Stuck(cfg, st') && st'.sink == st.sink && st'.hist.got == st.hist.got && TransmittedBy(cfg, st, step) == []
  {
    hide K.Receive;
    assert !step.Arrive? && !step.Trim?;
  }

  /** From such a state, whatever happens, the source transmits nothing and the sink gets nothing more; unless the
      sink has the whole flow already, the flow never finishes. */
  lemma {:induction false} StuckForever(cfg: Config, st: State, more: seq<Step>, st': State)
    requires cfg.Valid() && Inv(cfg, st) && Stuck(cfg, st) && Reaches(cfg, st, more, st')
    ensures Inv(cfg, st') && Stuck(cfg, st') && st'.sink == st.sink && st'.hist.got == st.hist.got
    ensures Transmitted(cfg, st, more, st') == []
    ensures st.sink.cumulativeAck < cfg.flowSize ==> !st'.src.flowFinished
    decreases |more|
  {
    hide Next, Stuck, TransmittedBy, SenderInv, HistoryInv, NetInv;
    if more == [] {
    } else {
      StuckNext(cfg, st, more[0]);
      NextInv(cfg, st, more[0]);
      StuckForever(cfg, Next(cfg, st, more[0]).value, more[1..], st');
    }
  }

  /** Such states are within reach: in every flow of one packet the packet may be sent and lost, and then the flow never
      finishes, whatever the timer does. */
  lemma LossOfTheOnlyPacket(cfg: Config, startingCwnd: nat) returns (steps: seq<Step>, st: State)
    requires cfg.Valid() && 0 < cfg.flowSize <= cfg.mss <= cfg.bdp
    ensures Run(cfg, startingCwnd, steps, st) && Stuck(cfg, st) && st.net == multiset{} && Lost(cfg, st, 1)
    ensures forall more, st' :: Reaches(cfg, st, more, st') ==> st'.sink == K.EmptySink && !st'.src.flowFinished
  {
    var st0, first := InitState(startingCwnd), Start(Clock(0, 0), 1);
    assert Reaches(cfg, st0, [], st0);
    OnePacketSent(cfg, startingCwnd);
    var st1 := Next(cfg, st0, first).value;
    hide Next, InitState;
    ReachesExtend(cfg, st0, [], st0, first);
    st := AfterLoss(cfg, st1);
    ReachesExtend(cfg, st0, [] + [first], st1, Lose(Data(1)));
    steps := [] + [first] + [Lose(Data(1))];
    RunInv(cfg, startingCwnd, steps, st);
    hide Inv, Stuck;
    forall more, st' | Reaches(cfg, st, more, st') ensures st'.sink == K.EmptySink && !st'.src.flowFinished {
      StuckForever(cfg, st, more, st');
    }
  }

  lemma OnePacketSent(cfg: Config, startingCwnd: nat)
    requires cfg.Valid() && 0 < cfg.flowSize <= cfg.mss <= cfg.bdp
    ensures Enabled(InitState(startingCwnd), Start(Clock(0, 0), 1))
    ensures Next(cfg, InitState(startingCwnd), Start(Clock(0, 0), 1)).Some?
    ensures var st := Next(cfg, InitState(startingCwnd), Start(Clock(0, 0), 1)).value;
      && st.net == multiset{Data(1)} && !st.src.rtxPending && st.src.highestSent == cfg.mss
      && st.hist.got == {} && st.sink == K.EmptySink
  {
    hide MinTimeout;
    var s := InitSender(startingCwnd).(permits := 1, maxCwnd := cfg.bdp, cwnd := cfg.bdp);
    var s1 := SendNew(cfg, s, Clock(0, 0));
    assert CanSendNew(cfg, s);
    assert SendLoop(cfg, s1, Clock(0, 0)) == s1 && SendLoop(cfg, s, Clock(0, 0)) == s1;
    assert s1.wire == [1] && [1][..0] == [];
    assert WireMsgs([1]) == multiset{Data(1)};
  }

  lemma AfterLoss(cfg: Config, st: State) returns (st': State)
    requires cfg.Valid() && 0 < cfg.flowSize <= cfg.mss && st.net == multiset{Data(1)} && !st.src.rtxPending
    requires st.src.highestSent == cfg.mss && st.hist.got == {} && st.sink == K.EmptySink
    ensures Enabled(st, Lose(Data(1))) && Next(cfg, st, Lose(Data(1))) == Some(st')
    ensures Stuck(cfg, st') && st'.net == multiset{} && Lost(cfg, st', 1) && st'.sink == K.EmptySink
  {
    st' := Next(cfg, st, Lose(Data(1))).value;
    assert IsSeq(cfg.mss, 1);
  }

  // ---------------------------------------------------------------- nothing in flight

  /** Room for a new packet in the present window or in the one that a restart sets. */
  predicate CanEverSend(cfg: Config, s: Sender) {
    s.highestSent < cfg.flowSize && GetUnacked(cfg, s) + cfg.mss <= Max(s.cwnd, cfg.bdp)
  }

  /** Nothing is in flight and no retransmission is pending. */
  ghost predicate Quiet(st: State) { st.net == multiset{} && !st.src.rtxPending && st.src.wire == [] }

  lemma QuietNext(cfg: Config, st: State, step: Step)
    requires cfg.Valid() && cfg.mss <= cfg.bdp && Quiet(st) && !CanEverSend(cfg, st.src)
    requires Enabled(st, step) && Next(cfg, st, step).Some?
    ensures var st' := Next(cfg, st, step).value;
      Quiet(st') && !CanEverSend(cfg, st'.src) && TransmittedBy(cfg, st, step) == [] && st'.hist == st.hist
  {
    hide SendPackets, WireMsgs, OutstandingBytes, ReceivePacket, K.Receive;
    match step
    case Start(clock, permits) =>
      SendsNothing(cfg, st.src.(permits := permits, maxCwnd := cfg.bdp, cwnd := cfg.bdp), clock);
      NothingOnTheWire(st.net);
    case PacedSend(clock, permits) =>
      SendsNothing(cfg, st.src.(permits := permits), clock);
      NothingOnTheWire(st.net);
    case _ =>
  }

  lemma {:induction false} QuietForever(cfg: Config, st: State, more: seq<Step>, st': State)
    requires cfg.Valid() && cfg.mss <= cfg.bdp && Quiet(st) && !CanEverSend(cfg, st.src) && Reaches(cfg, st, more, st')
    ensures Transmitted(cfg, st, more, st') == [] && st'.hist == st.hist
    decreases |more|
  {
    hide Next, Quiet, CanEverSend, TransmittedBy;
    if more == [] {
    } else {
      QuietNext(cfg, st, more[0]);
      QuietForever(cfg, Next(cfg, st, more[0]).value, more[1..], st');
    }
  }

  /** The step that sends a new packet, if the window or the one set by a restart has room for it. */
  function SendingStep(cfg: Config, s: Sender, permits: nat): Step {
    if GetUnacked(cfg, s) + cfg.mss <= s.cwnd then PacedSend(Clock(0, 0), permits) else Start(Clock(0, 0), permits)
  }

  function Woken(cfg: Config, s: Sender, permits: nat): Sender {
    if GetUnacked(cfg, s) + cfg.mss <= s.cwnd then s.(permits := permits)
    else s.(permits := permits, maxCwnd := cfg.bdp, cwnd := cfg.bdp)
  }

  lemma SendsOne(cfg: Config, st: State)
    requires cfg.Valid() && Quiet(st) && CanEverSend(cfg, st.src)
    ensures var step, s := SendingStep(cfg, st.src, 1), Woken(cfg, st.src, 1);
      && Enabled(st, step) && CanSendNew(cfg, s) && Next(cfg, st, step) == Some(Transmit(st, SendNew(cfg, s, Clock(0, 0))))
      && TransmittedBy(cfg, st, step) == [st.src.highestSent + 1]
  {
    hide OutstandingBytes, MinTimeout, WireMsgs;
    var s := Woken(cfg, st.src, 1);
    var s1 := SendNew(cfg, s, Clock(0, 0));
    assert SendLoop(cfg, s1, Clock(0, 0)) == s1 && SendLoop(cfg, s, Clock(0, 0)) == s1;
    assert SendPackets(cfg, s, Clock(0, 0)) == s1;
    assert [] + [st.src.highestSent + 1] == [st.src.highestSent + 1];
  }

  /** No continuation transmits anything. */
  ghost predicate Silent(cfg: Config, st: State)
    requires cfg.Valid()
  {
    forall more, st' :: Reaches(cfg, st, more, st') ==> Transmitted(cfg, st, more, st') == []
  }

  /** Exactly when the source is silent for good once nothing is in flight and no retransmission is pending: everything was
      sent, or the packets counted as outstanding leave no room, in the present window and in the one a restart sets. */
  lemma SilentIff(cfg: Config, st: State)
    requires cfg.Valid() && cfg.mss <= cfg.bdp && Quiet(st)
    ensures Silent(cfg, st) <==> !CanEverSend(cfg, st.src)
  {
    hide Next, Quiet, CanEverSend, TransmittedBy;
    if CanEverSend(cfg, st.src) {
      SendsOne(cfg, st);
      var step := SendingStep(cfg, st.src, 1);
      var st' := Next(cfg, st, step).value;
      var more := [step];
      assert more[1..] == [] && Reaches(cfg, st', [], st');
      assert Reaches(cfg, st, more, st');
      assert Transmitted(cfg, st', [], st') == [];
      assert Transmitted(cfg, st, more, st') == TransmittedBy(cfg, st, step) + [];
      assert Transmitted(cfg, st, more, st')[0] == st.src.highestSent + 1;
    } else {
      forall more, st' | Reaches(cfg, st, more, st') ensures Transmitted(cfg, st, more, st') == [] {
        QuietForever(cfg, st, more, st');
      }
    }
  }
}
