/** When a flow is declared finished. */
module BbrFinish {
  import opened Basics
  import opened BbrTypes
  import opened BbrSender
  import opened BbrProtocol
  import S = BbrSafety

  /** The source never sends past the packet that completes the flow. */
  predicate Capped(cfg: Config, s: Sender) { s.highestSent < cfg.flowSize + cfg.mss }

  predicate Complete(cfg: Config, h: History) { 0 < cfg.flowSize <= h.maxCum }

  predicate Finishes(cfg: Config, st: State) {
    Capped(cfg, st.src) && (st.src.flowFinished <==> Complete(cfg, st.hist))
  }

  /** What sending keeps. */
  predicate Sends(cfg: Config, s: Sender, s': Sender) {
    s'.flowFinished == s.flowFinished && (Capped(cfg, s) ==> Capped(cfg, s'))
  }

  lemma ResendSends(cfg: Config, s: Sender, i: nat, clock: Clock)
    requires i < |s.sent|
    ensures var s' := RetransmitOne(cfg, TimeoutOne(cfg, s, i, clock), i, clock);
      s'.flowFinished == s.flowFinished && s'.highestSent == s.highestSent
  {
    hide TimesOut, CanResend, MinTimeout;
  }

  lemma {:induction false} RetransmitSends(cfg: Config, s: Sender, i: nat, clock: Clock)
    requires i <= |s.sent|
    ensures var s' := RetransmitFrom(cfg, s, i, clock); s'.flowFinished == s.flowFinished && s'.highestSent == s.highestSent
    decreases |s.sent| - i
  {
    hide TimeoutOne, RetransmitOne;
    if i < |s.sent| {
      ResendSends(cfg, s, i, clock);
      RetransmitSends(cfg, RetransmitOne(cfg, TimeoutOne(cfg, s, i, clock), i, clock), i + 1, clock);
    }
  }

  lemma {:induction false} SendLoopSends(cfg: Config, s: Sender, clock: Clock)
    ensures Sends(cfg, s, SendLoop(cfg, s, clock))
    decreases s.permits
  {
    hide MinTimeout, OutstandingBytes;
    if CanSendNew(cfg, s) {
      SendLoopSends(cfg, SendNew(cfg, s, clock), clock);
    }
  }

  lemma SendPacketsSends(cfg: Config, s: Sender, clock: Clock)
    ensures Sends(cfg, s, SendPackets(cfg, s, clock))
  {
    hide SendLoop, RetransmitFrom;
    var s1 := if s.rtxPending then RetransmitFrom(cfg, s.(rtxPending := false), 0, clock) else s;
    if s.rtxPending {
      RetransmitSends(cfg, s.(rtxPending := false), 0, clock);
    }
    SendLoopSends(cfg, s1, clock);
  }

  lemma NackSends(cfg: Config, s: Sender, seqno: nat, clock: Clock)
    requires ProcessNack(cfg, s, seqno, clock).Some?
    ensures Sends(cfg, s, ProcessNack(cfg, s, seqno, clock).value)
  {
    hide MinTimeout, OutstandingBytes, IndexOf;
  }

  /** An acknowledgement that covers the flow leaves the list empty: nothing past the flow was sent. */
  lemma CoversAll(cfg: Config, s: Sender, h: History)
    requires cfg.Valid() && SenderInv(cfg, s, h) && Capped(cfg, s) && cfg.flowSize <= h.maxCum
    ensures s.sent == []
  {
    hide Aligned;
    if s.sent != [] {
      assert false;
    }
  }

  lemma AnyAckMeansSent(cfg: Config, m: Msg, st: State)
    requires cfg.Valid() && Inv(cfg, st) && m in st.net && m.Ack?
    ensures st.src.highestSent >= cfg.mss
  {
    hide SenderInv, Aligned;
    assert MsgOk(cfg, m, st.hist, st.src.highestSent);
    if m.seqno != 1 {
      assert WasSent(cfg.mss, st.src.highestSent, m.seqno);
    }
  }

  /** After an acknowledgement the flow is finished exactly if the acknowledgements processed cover it. */
  lemma AckFinishes(cfg: Config, st: State, m: Msg, s: Sender, clock: Clock)
    requires cfg.Valid() && Inv(cfg, st) && Finishes(cfg, st) && m in st.net && m.Ack?
    requires SenderInv(cfg, s, st.hist) && s.highestSent == st.src.highestSent && s.flowFinished == st.src.flowFinished
    ensures var r, h' := ProcessAck(cfg, s, m.seqno, m.ackno, clock), Acknowledged(st.hist, m);
      r.Some? && Capped(cfg, r.value) && (r.value.flowFinished <==> Complete(cfg, h'))
  {
    hide MarkReceived, SendPackets, SenderInv, HistoryInv, NetInv;
    assert MsgOk(cfg, m, st.hist, st.src.highestSent) by { MessageOk(cfg, st, m); }
    AnyAckMeansSent(cfg, m, st);
    MarkReceivedInv(cfg, s, m, st.sink, st.hist);
    AckSent(cfg, m, st.sink, st.hist, s.highestSent);
    var s1, h' := MarkReceived(cfg, s, m.seqno, m.ackno).value, Acknowledged(st.hist, m);
    CoveredBy(cfg, st.hist, m);
    if Complete(cfg, h') {
      CoversAll(cfg, s1, h');
    }
    if m.ackno >= cfg.flowSize && s1.sent == [] && !s1.flowFinished {
      EmptyMeansCovered(cfg, s1, h');
    } else {
      SendPacketsSends(cfg, s1.(highestSent := if m.ackno >= s1.highestSent then m.ackno else s1.highestSent, lastAcked := m.ackno), clock);
    }
  }

  lemma MessageOk(cfg: Config, st: State, m: Msg)
    requires cfg.Valid() && Inv(cfg, st) && m in st.net
    ensures MsgOk(cfg, m, st.hist, st.src.highestSent)
  {
  }

  lemma EmptyMeansCovered(cfg: Config, s: Sender, h: History)
    requires cfg.Valid() && SenderInv(cfg, s, h) && s.sent == []
    ensures h.maxCum == s.highestSent
  {
  }

  lemma CoveredBy(cfg: Config, h: History, m: Msg)
    requires m.Ack?
    ensures Complete(cfg, h) ==> Complete(cfg, Acknowledged(h, m))
    ensures Complete(cfg, Acknowledged(h, m)) ==> Complete(cfg, h) || m.ackno >= cfg.flowSize
  {
  }

  lemma FeedbackFinishes(cfg: Config, st: State, m: Msg, clock: Clock, permits: nat)
    requires cfg.Valid() && Inv(cfg, st) && Finishes(cfg, st)
    requires Enabled(st, Feedback(m, clock, permits)) && Next(cfg, st, Feedback(m, clock, permits)).Some?
    ensures Finishes(cfg, Next(cfg, st, Feedback(m, clock, permits)).value)
  {
    hide ProcessAck, ProcessNack, SenderInv, HistoryInv, NetInv;
    var s1 := ReduceUnacked(st.src.(permits := permits), cfg.mss);
    if m.Ack? {
      assert SenderInv(cfg, s1, st.hist) by { Unmoved(cfg, st.src, s1, st.hist); }
      AckFinishes(cfg, st, m, s1, clock);
    } else {
      NackSends(cfg, s1, m.seqno, clock);
    }
  }

  lemma Unmoved(cfg: Config, s: Sender, s': Sender, h: History)
    requires cfg.Valid() && SenderInv(cfg, s, h) && s' == s.(unacked := s'.unacked, permits := s'.permits)
    ensures SenderInv(cfg, s', h)
  {
  }

  lemma NextFinishes(cfg: Config, st: State, step: Step)
    requires cfg.Valid() && Inv(cfg, st) && Finishes(cfg, st) && Enabled(st, step) && Next(cfg, st, step).Some?
    ensures Finishes(cfg, Next(cfg, st, step).value)
  {
    hide Inv, ReceivePacket, SendPackets;
    match step
    case Start(clock, permits) =>
      SendPacketsSends(cfg, st.src.(permits := permits).(maxCwnd := cfg.bdp, cwnd := cfg.bdp), clock);
    case PacedSend(clock, permits) => SendPacketsSends(cfg, st.src.(permits := permits), clock);
    case Feedback(m, clock, permits) => FeedbackFinishes(cfg, st, m, clock, permits);
    case TimerScan(_, _) =>
    case Arrive(_) =>
    case Lose(_) =>
    case Duplicate(_) =>
    case Trim(_) =>
  }

  lemma {:induction false} ReachesFinishes(cfg: Config, a: State, steps: seq<Step>, b: State)
    requires cfg.Valid() && Inv(cfg, a) && Finishes(cfg, a) && Reaches(cfg, a, steps, b)
    ensures Finishes(cfg, b)
    decreases |steps|
  {
    hide Inv, Finishes, Next;
    if steps == [] {
    } else {
      NextInv(cfg, a, steps[0]);
      NextFinishes(cfg, a, steps[0]);
      ReachesFinishes(cfg, Next(cfg, a, steps[0]).value, steps[1..], b);
    }
  }

  /** In every run the source sends no packet that starts past the flow, and it has declared the flow finished
      exactly if the largest cumulative acknowledgement it has processed covers a flow that is not empty. */
  lemma FinishedIff(cfg: Config, startingCwnd: nat, steps: seq<Step>, st: State)
    requires cfg.Valid() && S.Run(cfg, startingCwnd, steps, st)
    ensures st.src.highestSent < cfg.flowSize + cfg.mss
    ensures st.src.flowFinished <==> 0 < cfg.flowSize <= st.hist.maxCum
  {
    hide Reaches, Inv;
    InitInv(cfg, startingCwnd);
    ReachesFinishes(cfg, InitState(startingCwnd), steps, st);
  }
}
