/** What every run of the BBR transport guarantees, over a network that loses, reorders, duplicates and
    trims and with a retransmission timer that fires at will. */
module BbrSafety {
  import opened Basics
  import opened BbrTypes
  import opened BbrSender
  import opened BbrProtocol
  import K = BbrSink

  ghost predicate Run(cfg: Config, startingCwnd: nat, steps: seq<Step>, st: State)
    requires cfg.Valid()
  {
    Reaches(cfg, InitState(startingCwnd), steps, st)
  }

  lemma RunInv(cfg: Config, startingCwnd: nat, steps: seq<Step>, st: State)
    requires cfg.Valid() && Run(cfg, startingCwnd, steps, st)
    ensures Inv(cfg, st)
  {
    InitInv(cfg, startingCwnd);
    ReachesInv(cfg, InitState(startingCwnd), steps, st);
  }

  /** The head of the list is exactly the packet after the largest cumulative acknowledgement processed,
      and it is never flagged as acknowledged. */
  lemma HeadIsNextExpected(cfg: Config, startingCwnd: nat, steps: seq<Step>, st: State)
    requires cfg.Valid() && Run(cfg, startingCwnd, steps, st)
    ensures st.src.sent != [] ==> st.src.sent[0].seqno == st.hist.maxCum + 1 && !st.src.sent[0].acked
    ensures st.src.sent == [] ==> st.src.highestSent == st.hist.maxCum
  {
    RunInv(cfg, startingCwnd, steps, st);
  }

  /** No acknowledgement can fail the assertion of `mark_received`, reach its branch for the head of the
      list, or make the erase loop run on because of an `acked` flag. */
  lemma AckBranchesThatNeverRun(cfg: Config, startingCwnd: nat, steps: seq<Step>, st: State, m: Msg)
    requires cfg.Valid() && Run(cfg, startingCwnd, steps, st) && m in st.net && m.Ack?
    ensures MarkReceived(cfg, st.src, m.seqno, m.ackno).Some?
    ensures m.seqno == 1 ==> DropAcked(st.src.sent, m.ackno) == DropCovered(st.src.sent, m.ackno)
    ensures m.seqno != 1 && st.src.sent != [] && st.src.sent[0].seqno <= m.ackno ==>
      0 < IndexOf(st.src.sent, m.seqno) < |st.src.sent|
    ensures m.ackno <= st.src.highestSent
  {
    RunInv(cfg, startingCwnd, steps, st);
    assert MsgOk(cfg, m, st.hist, st.src.highestSent);
    hide DropAcked, DropCovered, MarkReceived, Chain;
    MarkReceivedInv(cfg, st.src, m, st.sink, st.hist);
    AckSent(cfg, m, st.sink, st.hist, st.src.highestSent);
    if m.seqno == 1 {
      MarkCumulativeInv(cfg, st.src, m.ackno, st.sink, st.hist);
    } else if st.src.sent != [] && st.src.sent[0].seqno <= m.ackno {
      OutOfOrderFound(cfg, st.src, m.seqno, st.sink, st.hist);
    }
  }

  /** The source lets go of a packet, or flags it acknowledged, only if the sink holds it whole;
      it keeps every other packet it ever sent; and the flow is declared finished only when the sink has all of it. */
  lemma EndToEndSafety(cfg: Config, startingCwnd: nat, steps: seq<Step>, st: State)
    requires cfg.Valid() && Run(cfg, startingCwnd, steps, st)
    ensures forall x :: WasSent(cfg.mss, st.src.highestSent, x) ==>
      var i := IndexOf(st.src.sent, x);
      && ((i == |st.src.sent|) <==> (x <= st.hist.maxCum))
      && (i == |st.src.sent| || st.src.sent[i].acked ==> K.AlreadyReceived(st.sink, x) && x in st.hist.got)
    ensures forall i :: 0 <= i < |st.src.sent| ==> WasSent(cfg.mss, st.src.highestSent, st.src.sent[i].seqno)
    ensures forall x :: x in st.hist.got ==> WasSent(cfg.mss, st.src.highestSent, x)
    ensures st.src.flowFinished ==> st.sink.cumulativeAck >= cfg.flowSize
  {
    RunInv(cfg, startingCwnd, steps, st);
    forall x | WasSent(cfg.mss, st.src.highestSent, x)
      ensures var i := IndexOf(st.src.sent, x);
        && ((i == |st.src.sent|) <==> (x <= st.hist.maxCum))
        && (i == |st.src.sent| || st.src.sent[i].acked ==> K.AlreadyReceived(st.sink, x) && x in st.hist.got)
    {
      if x > st.hist.maxCum {
        FindInWindow(cfg.mss, st.src.sent, st.hist.maxCum, st.src.highestSent, x);
      }
    }
  }

  /** `sent` is a gapless run of packets that ends at `highestSent`. */
  lemma SentIsGapless(cfg: Config, startingCwnd: nat, steps: seq<Step>, st: State)
    requires cfg.Valid() && Run(cfg, startingCwnd, steps, st)
    ensures var sent := st.src.sent;
      && (forall i, j :: 0 <= i && j == i + 1 && j < |sent| ==> sent[j].seqno == sent[i].seqno + cfg.mss)
      && (sent != [] ==> sent[|sent|-1].seqno + cfg.mss == st.src.highestSent + 1)
  {
    RunInv(cfg, startingCwnd, steps, st);
  }

  /** Exactly when the assertions on a negative acknowledgement hold: no acknowledgement covering its
      packet, cumulative or out of order, has been processed before. */
  lemma NackAssertionsHoldIff(cfg: Config, startingCwnd: nat, steps: seq<Step>, st: State, m: Msg)
    requires cfg.Valid() && Run(cfg, startingCwnd, steps, st) && m in st.net && m.Nack?
    ensures NackAccepted(st.src, m.seqno) <==> m.seqno > st.hist.maxCum && m.seqno !in st.hist.oooDone
    ensures forall clock, permits ::
      Next(cfg, st, Feedback(m, clock, permits)).Some? <==> NackAccepted(st.src, m.seqno)
  {
    RunInv(cfg, startingCwnd, steps, st);
    assert MsgOk(cfg, m, st.hist, st.src.highestSent);
    if m.seqno > st.hist.maxCum {
      FindInWindow(cfg.mss, st.src.sent, st.hist.maxCum, st.src.highestSent, m.seqno);
    }
  }

  /** `_nack_rtx_pending` never goes below the number of packets flagged for retransmission, so
      decrementing the unsigned counter never wraps. */
  lemma NackCounterCovers(cfg: Config, startingCwnd: nat, steps: seq<Step>, st: State)
    requires cfg.Valid() && Run(cfg, startingCwnd, steps, st)
    ensures st.src.nackRtxPending >= CountNacked(st.src.sent) >= 0
  {
    RunInv(cfg, startingCwnd, steps, st);
  }

  // ---------------------------------------------------------------- a run on which an assertion fails

  /** A flow of two packets of one byte, with any retransmission timeout and margin. */
  predicate Small(cfg: Config) { cfg.mss == 1 && cfg.flowSize == 2 && cfg.bdp == 2 }

  /** The time of the first transmissions, and the time at which they time out. */
  const EARLY := Clock(1, 0)
  function Late(cfg: Config): Clock { Clock(1 + cfg.rto, 0) }

  /** The second assertion can fail although the network only trims: packet 1 is trimmed and its retransmission
      refused by the pacer; the timer then times packet 2 out, which is still under way, and it is sent again; one
      copy is trimmed, the other arrives, and its acknowledgement overtakes the negative one. The timeout may be any. */
  lemma NackAssertionCanFail(cfg: Config) returns (steps: seq<Step>, st: State, step: Step)
    requires Small(cfg)
    ensures cfg.Valid() && Run(cfg, 2, steps, st) && Enabled(st, step)
    ensures forall s :: s in steps ==> !s.Duplicate? && !s.Lose?
    ensures Next(cfg, st, step) == None
  {
    steps, st := AckOvertakesNack(cfg);
    step := Feedback(Nack(2, 2), Late(cfg), 0);
    hide OutstandingBytes, MinTimeout;
    assert IndexOf(LimitCwnd(cfg, ReduceUnacked(st.src.(permits := 0), 1)).sent, 2) == 1;
  }

  ghost predicate Genuine(steps: seq<Step>) {
    forall s :: s in steps ==> !s.Duplicate? && !s.Lose?
  }

  /** A run from the start of the small flow, one step longer. */
  lemma Extend(cfg: Config, steps: seq<Step>, st: State, step: Step, st': State) returns (steps': seq<Step>)
    requires Small(cfg) && Run(cfg, 2, steps, st) && Genuine(steps) && !step.Duplicate? && !step.Lose?
    requires Enabled(st, step) && Next(cfg, st, step) == Some(st')
    ensures Run(cfg, 2, steps', st') && Genuine(steps')
  {
    hide Next, InitState;
    ReachesExtend(cfg, InitState(2), steps, st, step);
    steps' := steps + [step];
  }

  lemma AckOvertakesNack(cfg: Config) returns (steps: seq<Step>, st: State)
    requires Small(cfg)
    ensures Run(cfg, 2, steps, st) && Genuine(steps)
    ensures Nack(2, 2) in st.net
    ensures |st.src.sent| == 2 && st.src.sent[0].seqno == 1 && st.src.sent[1].seqno == 2 && st.src.sent[1].acked
  {
    hide Next, Reaches, InitState;
    steps := CopiesAnswered(cfg);
    AckArrives(cfg);
    st := Overtaken(cfg);
    steps := Extend(cfg, steps, Answered(cfg), Feedback(Ack(2, 2, 2), Late(cfg), 0), st);
  }

  lemma CopiesAnswered(cfg: Config) returns (steps: seq<Step>)
    requires Small(cfg)
    ensures Run(cfg, 2, steps, Answered(cfg)) && Genuine(steps)
  {
    hide Next, Reaches, InitState;
    steps := SentAgain(cfg);
    OneCopyTrimmed(cfg);
    steps := Extend(cfg, steps, Resent(cfg), Trim(2), CopyTrimmed(cfg));
    HeaderAnswered(cfg);
    steps := Extend(cfg, steps, CopyTrimmed(cfg), Arrive(Header(2)), TrimAnswered(cfg));
    DataAnswered(cfg);
    steps := Extend(cfg, steps, TrimAnswered(cfg), Arrive(Data(2)), Answered(cfg));
  }

  lemma SentAgain(cfg: Config) returns (steps: seq<Step>)
    requires Small(cfg)
    ensures Run(cfg, 2, steps, Resent(cfg)) && Genuine(steps)
  {
    hide Next, Reaches, InitState;
    steps := NackRefused(cfg);
    TimerFires(cfg);
    steps := Extend(cfg, steps, Refused(cfg), TimerScan(1 + cfg.rto, 0), TimedOut(cfg));
    ResendsSecond(cfg);
    steps := Extend(cfg, steps, TimedOut(cfg), PacedSend(Late(cfg), 1), Resent(cfg));
  }

  lemma NackRefused(cfg: Config) returns (steps: seq<Step>)
    requires Small(cfg)
    ensures Run(cfg, 2, steps, Refused(cfg)) && Genuine(steps)
  {
    hide Next, Reaches, InitState;
    steps := HeaderOnItsWay(cfg);
    FirstAnswered(cfg);
    steps := Extend(cfg, steps, HeaderSent(cfg), Arrive(Header(1)), FirstNacked(cfg));
    PacerRefuses(cfg);
    steps := Extend(cfg, steps, FirstNacked(cfg), Feedback(Nack(1, 1), EARLY, 0), Refused(cfg));
  }

  lemma HeaderOnItsWay(cfg: Config) returns (steps: seq<Step>)
    requires Small(cfg)
    ensures Run(cfg, 2, steps, HeaderSent(cfg)) && Genuine(steps)
  {
    hide Next, Reaches, InitState;
    NothingYet(cfg);
    SendsTwo(cfg);
    steps := Extend(cfg, [], InitState(2), Start(EARLY, 2), TwoSent(cfg));
    FirstTrimmed(cfg);
    steps := Extend(cfg, steps, TwoSent(cfg), Trim(1), HeaderSent(cfg));
  }

  lemma NothingYet(cfg: Config)
    requires Small(cfg)
    ensures Run(cfg, 2, [], InitState(2)) && Enabled(InitState(2), Start(EARLY, 2))
  {
  }

  // The states of that run. Packet 1 is negatively acknowledged once and never sent again.

  function Sent(cfg: Config, timer: nat, acked: bool, unacked: nat, pending: bool, cwnd: nat): Sender {
    Sender([SentPacket(1 + cfg.rto, 1, false, true, false), SentPacket(timer, 2, acked, false, false)],
      2, if acked then 2 else 0, unacked, 1, true, pending, if acked then TIME_INF else timer, cwnd, 2, false, 0, [])
  }

  function HeaderSent(cfg: Config): State { TwoSent(cfg).(net := multiset{Header(1), Data(2)}) }
  function FirstNacked(cfg: Config): State { TwoSent(cfg).(net := multiset{Nack(1, 1), Data(2)}) }
  function Refused(cfg: Config): State { TwoSent(cfg).(src := Sent(cfg, 1 + cfg.rto, false, 1, false, 2), net := multiset{Data(2)}) }
  function TimedOut(cfg: Config): State { Refused(cfg).(src := Sent(cfg, 1 + cfg.rto, false, 1, true, 1)) }
  function Resent(cfg: Config): State {
    TimedOut(cfg).(src := Sent(cfg, 1 + 2 * cfg.rto, false, 1, false, 1), net := multiset{Data(2), Data(2)})
  }

  function CopyTrimmed(cfg: Config): State { Resent(cfg).(net := multiset{Data(2), Header(2)}) }
  function TrimAnswered(cfg: Config): State { Resent(cfg).(net := multiset{Data(2), Nack(2, 2)}) }

  function Answered(cfg: Config): State {
    Resent(cfg).(net := multiset{Ack(2, 2, 2), Nack(2, 2)}, sink := K.Sink(0, [2]), hist := History({2}, {0}, {2}, {}, 0))
  }

  function Overtaken(cfg: Config): State {
    Answered(cfg).(src := Sent(cfg, 1 + 2 * cfg.rto, true, 0, false, 1), net := multiset{Nack(2, 2)}, hist := History({2}, {0}, {2}, {2}, 0))
  }

  lemma FirstTrimmed(cfg: Config)
    requires Small(cfg)
    ensures Enabled(TwoSent(cfg), Trim(1)) && Next(cfg, TwoSent(cfg), Trim(1)) == Some(HeaderSent(cfg))
  {
    assert multiset{Data(1), Data(2)} - multiset{Data(1)} + multiset{Header(1)} == multiset{Header(1), Data(2)};
  }

  lemma FirstAnswered(cfg: Config)
    requires Small(cfg)
    ensures Enabled(HeaderSent(cfg), Arrive(Header(1)))
    ensures Next(cfg, HeaderSent(cfg), Arrive(Header(1))) == Some(FirstNacked(cfg))
  {
    assert multiset{Header(1), Data(2)} - multiset{Header(1)} + multiset{Nack(1, 1)} == multiset{Nack(1, 1), Data(2)};
  }

  lemma NothingTransmitted(net: multiset<Msg>)
    ensures net + WireMsgs([]) == net
  {
  }

  lemma PacerRefuses(cfg: Config)
    requires Small(cfg)
    ensures Enabled(FirstNacked(cfg), Feedback(Nack(1, 1), EARLY, 0))
    ensures Next(cfg, FirstNacked(cfg), Feedback(Nack(1, 1), EARLY, 0)) == Some(Refused(cfg))
  {
    hide OutstandingBytes, MinTimeout;
    assert multiset{Nack(1, 1), Data(2)} - multiset{Nack(1, 1)} == multiset{Data(2)};
    var s := ReduceUnacked(TwoSent(cfg).src, 1);
    assert LimitCwnd(cfg, s) == s && IndexOf(s.sent, 1) == 0;
    assert MarkNacked(s, 0) == Sent(cfg, 1 + cfg.rto, false, 1, false, 2).(rtxPending := false) by {
      assert s.sent[0 := SentPacket(1 + cfg.rto, 1, false, true, false)] == Sent(cfg, 1 + cfg.rto, false, 1, false, 2).sent;
    }
    assert ProcessNack(cfg, s, 1, EARLY) == Some(Sent(cfg, 1 + cfg.rto, false, 1, false, 2));
    NothingTransmitted(FirstNacked(cfg).net - multiset{Nack(1, 1)});
  }

  lemma TimerFires(cfg: Config)
    requires Small(cfg)
    ensures Enabled(Refused(cfg), TimerScan(1 + cfg.rto, 0)) && Next(cfg, Refused(cfg), TimerScan(1 + cfg.rto, 0)) == Some(TimedOut(cfg))
  {
  }

  function Listed(cfg: Config, timedOut: bool): seq<SentPacket> {
    [SentPacket(1 + cfg.rto, 1, false, true, false), SentPacket(1 + cfg.rto, 2, false, false, timedOut)]
  }

  /** The outstanding bytes before the timeout of packet 2, and after it. */
  lemma SecondOutstanding(cfg: Config, timedOut: bool)
    ensures OutstandingBytes(1, Listed(cfg, timedOut)) == if timedOut then 0 else 1
  {
    var sent := Listed(cfg, timedOut);
    assert sent[..1] == [sent[0]] && sent[..1][..0] == [];
    assert OutstandingBytes(1, []) == 0 && OutstandingBytes(1, sent[..1]) == 0;
  }

  lemma SecondTimer(cfg: Config, timer: nat, acked: bool)
    requires timer > 0
    ensures MinTimeout(Sent(cfg, timer, acked, 0, false, 1).sent, TIME_INF) == if acked then TIME_INF else timer
  {
    var sent := Sent(cfg, timer, acked, 0, false, 1).sent;
    assert sent[1..] == [sent[1]] && sent[1..][1..] == [];
    var least := if acked then TIME_INF else timer;
    assert MinTimeout([], least) == least && MinTimeout(sent[1..], TIME_INF) == least;
  }

  lemma ResendsSecond(cfg: Config)
    requires Small(cfg)
    ensures Enabled(TimedOut(cfg), PacedSend(Late(cfg), 1))
    ensures Next(cfg, TimedOut(cfg), PacedSend(Late(cfg), 1)) == Some(Resent(cfg))
  {
    hide OutstandingBytes, MinTimeout;
    var c := Late(cfg);
    var s0 := Sent(cfg, 1 + cfg.rto, false, 1, true, 1).(permits := 1, rtxPending := false);
    var s2 := SecondTurn(cfg, s0.(rtxPending := true));
    SecondOutstanding(cfg, false);
    assert s0.sent == Listed(cfg, false);
    assert RetransmitOne(cfg, TimeoutOne(cfg, s0, 0, c), 0, c) == s0.(rtxPending := true);
    assert RetransmitFrom(cfg, s2, 2, c) == s2.(rtxTimeoutPending := false);
    assert RetransmitFrom(cfg, s0.(rtxPending := true), 1, c) == s2.(rtxTimeoutPending := false);
    assert RetransmitFrom(cfg, s0, 0, c) == s2.(rtxTimeoutPending := false);
    assert SendPackets(cfg, s0.(rtxPending := true), c) == s2.(rtxTimeoutPending := false);
    SecondOnTheWire();
    assert multiset{Data(2)} + multiset{Data(2)} == multiset{Data(2), Data(2)};
  }

  /** The retransmission loop's turn for packet 2. */
  lemma SecondTurn(cfg: Config, s1: Sender) returns (s2: Sender)
    requires Small(cfg) && s1 == Sent(cfg, 1 + cfg.rto, false, 1, true, 1).(permits := 1, rtxPending := true)
    ensures s2 == Sent(cfg, 1 + 2 * cfg.rto, false, 1, true, 1).(wire := [2])
    ensures RetransmitOne(cfg, TimeoutOne(cfg, s1, 1, Late(cfg)), 1, Late(cfg)) == s2
  {
    hide OutstandingBytes, MinTimeout;
    var c, late := Late(cfg), Listed(cfg, true);
    s2 := Sent(cfg, 1 + 2 * cfg.rto, false, 1, true, 1).(wire := [2]);
    SecondOutstanding(cfg, true);
    SecondTimer(cfg, 1 + 2 * cfg.rto, false);
    assert TimeoutOne(cfg, s1, 1, c) == s1.(sent := late, unacked := 0) by {
      assert s1.sent[1 := s1.sent[1].(timedOut := true)] == late;
    }
    assert late[1 := SentPacket(1 + 2 * cfg.rto, 2, false, false, false)] == s2.sent && [] + [2] == [2];
  }

  lemma SecondOnTheWire()
    ensures WireMsgs([2]) == multiset{Data(2)}
  {
    assert [2][..0] == [];
  }

  lemma OneCopyTrimmed(cfg: Config)
    requires Small(cfg)
    ensures Enabled(Resent(cfg), Trim(2)) && Next(cfg, Resent(cfg), Trim(2)) == Some(CopyTrimmed(cfg))
  {
    assert multiset{Data(2), Data(2)} - multiset{Data(2)} + multiset{Header(2)} == multiset{Data(2), Header(2)};
  }

  lemma HeaderAnswered(cfg: Config)
    requires Small(cfg)
    ensures Enabled(CopyTrimmed(cfg), Arrive(Header(2)))
    ensures Next(cfg, CopyTrimmed(cfg), Arrive(Header(2))) == Some(TrimAnswered(cfg))
  {
    assert multiset{Data(2), Header(2)} - multiset{Header(2)} + multiset{Nack(2, 2)} == multiset{Data(2), Nack(2, 2)};
  }

  lemma DataAnswered(cfg: Config)
    requires Small(cfg)
    ensures Enabled(TrimAnswered(cfg), Arrive(Data(2)))
    ensures Next(cfg, TrimAnswered(cfg), Arrive(Data(2))) == Some(Answered(cfg))
  {
    assert multiset{Data(2), Nack(2, 2)} - multiset{Data(2)} + multiset{Ack(2, 2, 2)} == multiset{Ack(2, 2, 2), Nack(2, 2)};
    assert {} + {2} == {2} && K.Insert([], 2) == [2];
    assert K.Receive(1, K.EmptySink, 2, false) == (K.Sink(0, [2]), Ack(2, 2, 2));
  }

  lemma AckArrives(cfg: Config)
    requires Small(cfg)
    ensures Enabled(Answered(cfg), Feedback(Ack(2, 2, 2), Late(cfg), 0))
    ensures Next(cfg, Answered(cfg), Feedback(Ack(2, 2, 2), Late(cfg), 0)) == Some(Overtaken(cfg))
  {
    hide OutstandingBytes, MinTimeout;
    var c := Late(cfg);
    SecondTimer(cfg, 1 + 2 * cfg.rto, true);
    var s := ReduceUnacked(Sent(cfg, 1 + 2 * cfg.rto, false, 1, false, 1), 1);
    assert IndexOf(s.sent, 2) == 1;
    var s1 := Sent(cfg, 1 + 2 * cfg.rto, true, 0, false, 1);
    assert MarkReceived(cfg, s, 2, 2) == Some(s1) by {
      assert s.sent[1 := SentPacket(1 + 2 * cfg.rto, 2, true, false, false)] == s1.sent;
    }
    assert RetransmitFrom(cfg, s1, 2, c) == s1;
    assert RetransmitFrom(cfg, s1, 1, c) == s1;
    assert RetransmitFrom(cfg, s1.(rtxPending := false), 0, c) == s1;
    assert SendPackets(cfg, s1, c) == s1;
    assert ProcessAck(cfg, s, 2, 2, c) == Some(s1);
    assert multiset{Ack(2, 2, 2), Nack(2, 2)} - multiset{Ack(2, 2, 2)} == multiset{Nack(2, 2)};
    assert {} + {2} == {2};
    NothingTransmitted(Answered(cfg).net - multiset{Ack(2, 2, 2)});
  }

  /** A flow of two one-byte packets after it has started. */
  function TwoSent(cfg: Config): State {
    State(
      Sender([SentPacket(1 + cfg.rto, 1, false, false, false), SentPacket(1 + cfg.rto, 2, false, false, false)],
        2, 0, 2, 0, false, false, 1 + cfg.rto, 2, 2, false, 0, []),
      K.EmptySink, multiset{Data(1), Data(2)}, History({}, {0}, {}, {}, 0))
  }

  lemma SendsTwo(cfg: Config)
    requires Small(cfg)
    ensures Next(cfg, InitState(2), Start(EARLY, 2)) == Some(TwoSent(cfg))
  {
    hide SendNew;
    var c := EARLY;
    SendsFirst(cfg);
    SendsSecond(cfg);
    TwoOnTheWire();
    var s2 := TwoSent(cfg).src.(wire := [1, 2]);
    assert SendLoop(cfg, s2, c) == s2;
    var s0 := InitSender(2).(permits := 2, maxCwnd := 2, cwnd := 2);
    assert SendLoop(cfg, OneSent(cfg), c) == s2;
    assert SendLoop(cfg, s0, c) == s2;
    assert StartFlow(cfg, InitSender(2).(permits := 2), c) == s2;
    var net := multiset{} + multiset{Data(1), Data(2)};
    assert net == TwoSent(cfg).net;
  }

  function OneSent(cfg: Config): Sender {
    Sender([SentPacket(1 + cfg.rto, 1, false, false, false)], 1, 0, 1, 0, false, false, 1 + cfg.rto, 2, 2, false, 1, [1])
  }

  lemma SendsFirst(cfg: Config)
    requires Small(cfg)
    ensures var s0 := InitSender(2).(permits := 2, maxCwnd := 2, cwnd := 2);
      && CanSendNew(cfg, s0)
      && SendNew(cfg, s0, EARLY) == OneSent(cfg)
  {
    hide OutstandingBytes, MinTimeout;
    assert OutstandingBytes(1, []) == 0 by { NoneOutstanding(); }
    assert [] + [SentPacket(1 + cfg.rto, 1, false, false, false)] == OneSent(cfg).sent && [] + [1] == [1];
    FirstTimer(cfg);
  }

  lemma NoneOutstanding()
    ensures OutstandingBytes(1, []) == 0
  {
  }

  lemma FirstTimer(cfg: Config)
    requires Small(cfg)
    ensures MinTimeout(OneSent(cfg).sent, TIME_INF) == 1 + cfg.rto
  {
    assert OneSent(cfg).sent[1..] == [];
    assert MinTimeout([], 1 + cfg.rto) == 1 + cfg.rto;
  }

  lemma SendsSecond(cfg: Config)
    requires Small(cfg)
    ensures CanSendNew(cfg, OneSent(cfg))
    ensures SendNew(cfg, OneSent(cfg), EARLY) == TwoSent(cfg).src.(wire := [1, 2])
  {
    hide OutstandingBytes, MinTimeout;
    OneOutstanding(cfg);
    var two := [SentPacket(1 + cfg.rto, 1, false, false, false)] + [SentPacket(1 + cfg.rto, 2, false, false, false)];
    assert two == TwoSent(cfg).src.sent && [1] + [2] == [1, 2];
  }

  lemma OneOutstanding(cfg: Config)
    requires Small(cfg)
    ensures OutstandingBytes(1, OneSent(cfg).sent) == 1
  {
    assert OneSent(cfg).sent[..0] == [] && OutstandingBytes(1, []) == 0;
  }

  lemma TwoOnTheWire()
    ensures WireMsgs([1, 2]) == multiset{Data(1), Data(2)}
  {
    assert [1, 2][..1] == [1] && [1][..0] == [];
    assert WireMsgs([1]) == multiset{Data(1)};
  }
}
