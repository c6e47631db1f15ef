/** When a lost packet can still reach the sink, once nothing is in flight. */
module BbrRepair {
  import opened Basics
  import opened BbrTypes
  import opened BbrSender
  import opened BbrProtocol
  import opened BbrSafety
  import opened BbrOnce
  import opened BbrStall
  import K = BbrSink

  /** Some continuation brings packet `x` to the sink. */
  ghost predicate Repairable(cfg: Config, st: State, x: nat)
    requires cfg.Valid()
  {
    exists more, st' :: Reaches(cfg, st, more, st') && x in st'.hist.got
  }

  lemma RepairedAlready(cfg: Config, st: State, x: nat)
    requires cfg.Valid() && x in st.hist.got
    ensures Repairable(cfg, st, x)
  {
    assert Reaches(cfg, st, [], st);
  }

  lemma RepairLater(cfg: Config, st: State, step: Step, st': State, x: nat)
    requires cfg.Valid() && Enabled(st, step) && Next(cfg, st, step) == Some(st') && Repairable(cfg, st', x)
    ensures Repairable(cfg, st, x)
  {
    hide Next;
    var more, end :| Reaches(cfg, st', more, end) && x in end.hist.got;
    assert ([step] + more)[1..] == more;
    assert Reaches(cfg, st, [step] + more, end);
  }

  // ---------------------------------------------------------------- timers

  /** Timers are set, the earliest one is known while a packet is outstanding, and the window is open once something
      was sent. */
  ghost predicate TimerOk(s: Sender) {
    && (forall i :: 0 <= i < |s.sent| ==> s.sent[i].timer > 0)
    && (s.rtxTimeout == TIME_INF ==> forall i :: 0 <= i < |s.sent| ==> !s.sent[i].Outstanding())
    && (s.highestSent > 0 ==> s.cwnd > 0)
  }

  lemma {:induction false} MinTimeoutKnown(sent: seq<SentPacket>, least: nat)
    requires forall i :: 0 <= i < |sent| ==> sent[i].timer > 0
    ensures MinTimeout(sent, least) == TIME_INF ==> least == TIME_INF && forall i :: 0 <= i < |sent| ==> !sent[i].Outstanding()
    decreases |sent|
  {
    if sent == [] {
    } else {
      var sp := sent[0];
      MinTimeoutKnown(sent[1..], if sp.Outstanding() && (sp.timer < least || least == TIME_INF) then sp.timer else least);
      assert forall i :: 0 < i < |sent| ==> sent[i] == sent[1..][i-1];
    }
  }

  lemma UpdateTimerOk(s: Sender)
    requires (forall i :: 0 <= i < |s.sent| ==> s.sent[i].timer > 0) && (s.highestSent > 0 ==> s.cwnd > 0)
    ensures TimerOk(UpdateRtxTime(s))
  {
    hide MinTimeout;
    MinTimeoutKnown(s.sent, TIME_INF);
  }

  lemma ResendTimerOk(cfg: Config, s: Sender, i: nat, clock: Clock)
    requires cfg.rto > 0 && TimerOk(s) && i < |s.sent| && !s.sent[i].acked
    ensures TimerOk(ResendPacket(cfg, s, i, clock))
  {
    hide MinTimeout, OutstandingBytes;
    if CanResend(cfg, s) {
      var sp := s.sent[i].(nacked := false, timer := clock.now + clock.service + cfg.rto, timedOut := false);
      UpdateTimerOk(s.(unacked := s.unacked + cfg.mss, sent := s.sent[i := sp],
        nackRtxPending := if s.sent[i].nacked then s.nackRtxPending - 1 else s.nackRtxPending,
        permits := s.permits - 1, wire := s.wire + [sp.seqno]));
    }
  }

  lemma {:induction false} RetransmitTimerOk(cfg: Config, s: Sender, i: nat, clock: Clock)
    requires cfg.Valid() && cfg.rto > 0 && TimerOk(s) && i <= |s.sent|
    ensures TimerOk(RetransmitFrom(cfg, s, i, clock))
    decreases |s.sent| - i
  {
    hide ResendPacket, CanResend;
    if i == |s.sent| {
    } else {
      var s1 := TimeoutOne(cfg, s, i, clock);
      assert TimerOk(s1);
      var s2 := s1.(rtxPending := true);
      if !s1.sent[i].acked {
        ResendTimerOk(cfg, s1, i, clock);
        ResendTimerOk(cfg, s2, i, clock);
      }
      RetransmitTimerOk(cfg, RetransmitOne(cfg, s1, i, clock), i + 1, clock);
    }
  }

  lemma SendNewTimerOk(cfg: Config, s: Sender, clock: Clock)
    requires cfg.Valid() && cfg.rto > 0 && TimerOk(s) && CanSendNew(cfg, s)
    ensures TimerOk(SendNew(cfg, s, clock))
  {
    hide MinTimeout, OutstandingBytes;
    var s' := s.(
      highestSent := s.highestSent + cfg.mss, unacked := s.unacked + cfg.mss,
      sent := s.sent + [SentPacket(clock.now + clock.service + cfg.rto, s.highestSent + 1, false, false, false)],
      permits := s.permits - 1, wire := s.wire + [s.highestSent + 1]);
    UpdateTimerOk(s');
  }

  lemma {:induction false} SendLoopTimerOk(cfg: Config, s: Sender, clock: Clock)
    requires cfg.Valid() && cfg.rto > 0 && TimerOk(s)
    ensures TimerOk(SendLoop(cfg, s, clock))
    decreases s.permits
  {
    hide TimerOk;
    if CanSendNew(cfg, s) {
      SendNewTimerOk(cfg, s, clock);
      SendLoopTimerOk(cfg, SendNew(cfg, s, clock), clock);
    }
  }

  lemma SendPacketsTimerOk(cfg: Config, s: Sender, clock: Clock)
    requires cfg.Valid() && cfg.rto > 0 && TimerOk(s)
    ensures TimerOk(SendPackets(cfg, s, clock))
  {
    hide RetransmitFrom, SendLoop;
    RetransmitTimerOk(cfg, s.(rtxPending := false), 0, clock);
    SendLoopTimerOk(cfg, if s.rtxPending then RetransmitFrom(cfg, s.(rtxPending := false), 0, clock) else s, clock);
  }

  lemma {:induction false} DropsTail(sent: seq<SentPacket>, ackno: nat)
    ensures forall i :: 0 <= i < |DropAcked(sent, ackno)| ==> DropAcked(sent, ackno)[i] in sent
    ensures forall i :: 0 <= i < |DropHeads(sent)| ==> DropHeads(sent)[i] in sent
    decreases |sent|
  {
    if sent == [] {
    } else {
      DropsTail(sent[1..], ackno);
      assert forall sp :: sp in sent[1..] ==> sp in sent;
      assert forall i :: 0 <= i < |sent| ==> sent[i] in sent;
    }
  }

  lemma MarkReceivedTimerOk(cfg: Config, s: Sender, seqno: nat, ackno: nat)
    requires cfg.Valid() && TimerOk(s) && MarkReceived(cfg, s, seqno, ackno).Some?
    ensures TimerOk(MarkReceived(cfg, s, seqno, ackno).value)
  {
    hide MinTimeout, DropAcked, DropHeads;
    DropsTail(s.sent, ackno);
    if seqno == 1 {
      UpdateTimerOk(s.(sent := DropAcked(s.sent, ackno)));
    } else if s.sent != [] && s.sent[0].seqno <= ackno {
      var i := IndexOf(s.sent, seqno);
      if i == 0 {
        DropsTail(s.sent[1..], ackno);
        UpdateTimerOk(s.(sent := DropHeads(s.sent[1..])));
      } else {
        var sp := s.sent[i];
        UpdateTimerOk(s.(sent := s.sent[i := SentPacket(sp.timer, sp.seqno, true, false, false)],
          nackRtxPending := if sp.nacked then s.nackRtxPending - 1 else s.nackRtxPending,
          lastAcked := sp.seqno + cfg.mss - 1));
      }
    }
  }

  lemma MarkKeepsWindow(cfg: Config, s: Sender, seqno: nat, ackno: nat)
    requires cfg.Valid() && MarkReceived(cfg, s, seqno, ackno).Some?
    ensures var s' := MarkReceived(cfg, s, seqno, ackno).value; s'.cwnd == s.cwnd && s'.highestSent == s.highestSent
  {
    hide MinTimeout, DropAcked, DropHeads, IndexOf;
  }

  lemma FeedbackTimerOk(cfg: Config, s: Sender, m: Msg, clock: Clock)
    requires cfg.Valid() && cfg.rto > 0 && TimerOk(s) && (m.Ack? || m.Nack?) && ReceivePacket(cfg, s, m, clock).Some?
    requires m.Ack? ==> m.ackno <= s.highestSent
    ensures TimerOk(ReceivePacket(cfg, s, m, clock).value)
  {
    hide MarkReceived, SendPackets, ResendPacket, CanResend, IndexOf;
    var s1 := ReduceUnacked(s, cfg.mss);
    if m.Ack? {
      MarkReceivedTimerOk(cfg, s1, m.seqno, m.ackno);
      var s2 := MarkReceived(cfg, s1, m.seqno, m.ackno).value;
      MarkKeepsWindow(cfg, s1, m.seqno, m.ackno);
      SendPacketsTimerOk(cfg,
        s2.(highestSent := if m.ackno >= s2.highestSent then m.ackno else s2.highestSent, lastAcked := m.ackno), clock);
    } else {
      var s2 := LimitCwnd(cfg, s1);
      var i := IndexOf(s2.sent, m.seqno);
      assert TimerOk(MarkNacked(s2, i));
      ResendTimerOk(cfg, MarkNacked(s2, i), i, clock);
    }
  }

  lemma NextTimerOk(cfg: Config, st: State, step: Step)
    requires cfg.Valid() && cfg.rto > 0 && cfg.bdp > 0 && Inv(cfg, st)
    requires TimerOk(st.src) && Enabled(st, step) && Next(cfg, st, step).Some?
    ensures TimerOk(Next(cfg, st, step).value.src)
  {
    hide ReceivePacket, SendPackets, K.Receive, WireMsgs, SenderInv, HistoryInv, MsgOk;
    match step
    case Start(clock, permits) =>
      SendPacketsTimerOk(cfg, st.src.(permits := permits, maxCwnd := cfg.bdp, cwnd := cfg.bdp), clock);
    case PacedSend(clock, permits) => SendPacketsTimerOk(cfg, st.src.(permits := permits), clock);
    case Feedback(m, clock, permits) =>
      if m.Ack? {
        assert MsgOk(cfg, m, st.hist, st.src.highestSent);
        AckSent(cfg, m, st.sink, st.hist, st.src.highestSent);
      }
      FeedbackTimerOk(cfg, st.src.(permits := permits), m, clock);
    case _ =>
  }

  lemma {:induction false} ReachesTimerOk(cfg: Config, a: State, steps: seq<Step>, b: State)
    requires cfg.Valid() && cfg.rto > 0 && cfg.bdp > 0 && Inv(cfg, a) && TimerOk(a.src) && Reaches(cfg, a, steps, b)
    ensures TimerOk(b.src)
    decreases |steps|
  {
    hide Next, TimerOk, Inv;
    if steps == [] {
    } else {
      NextInv(cfg, a, steps[0]);
      NextTimerOk(cfg, a, steps[0]);
      ReachesTimerOk(cfg, Next(cfg, a, steps[0]).value, steps[1..], b);
    }
  }

  // ---------------------------------------------------------------- retransmission without a permit

  predicate Settled(sp: SentPacket) { sp.acked || sp.nacked || sp.timedOut }

  predicate Needy(sp: SentPacket) { !sp.acked && (sp.timedOut || sp.nacked) }

  ghost predicate SomeNeedy(sent: seq<SentPacket>, i: nat) {
    exists j :: i <= j < |sent| && Needy(sent[j])
  }

  ghost predicate AllSettled(sent: seq<SentPacket>, i: nat) {
    forall j :: i <= j < |sent| ==> Settled(sent[j])
  }

  lemma {:induction false} SettledBytes(mss: nat, sent: seq<SentPacket>)
    requires AllSettled(sent, 0)
    ensures OutstandingBytes(mss, sent) == 0
    decreases |sent|
  {
    if sent == [] {
    } else {
      SettledBytes(mss, sent[..|sent|-1]);
    }
  }

  /** The retransmission loop without a permit and without timeouts only notes whether it refused something. */
  lemma {:induction false} RefuseAll(cfg: Config, s: Sender, i: nat, clock: Clock)
    requires s.permits == 0 && !s.rtxTimeoutPending && i <= |s.sent|
    ensures RetransmitFrom(cfg, s, i, clock) == s.(rtxPending := s.rtxPending || SomeNeedy(s.sent, i))
    decreases |s.sent| - i
  {
    hide OutstandingBytes;
    if i == |s.sent| {
      assert !SomeNeedy(s.sent, i);
    } else {
      var s1 := RetransmitOne(cfg, s, i, clock);
      assert s1 == s.(rtxPending := s.rtxPending || Needy(s.sent[i]));
      RefuseAll(cfg, s1, i + 1, clock);
      assert SomeNeedy(s.sent, i) <==> Needy(s.sent[i]) || SomeNeedy(s.sent, i + 1);
    }
  }

  lemma SendsRefused(cfg: Config, s: Sender, clock: Clock)
    requires s.permits == 0 && s.rtxPending && !s.rtxTimeoutPending
    ensures SendPackets(cfg, s, clock) == s.(rtxPending := SomeNeedy(s.sent, 0))
  {
    hide OutstandingBytes, RetransmitFrom, SomeNeedy;
    RefuseAll(cfg, s.(rtxPending := false), 0, clock);
  }

  /** What the loop does to the list without a permit when every timer has run out. */
  ghost predicate TimesOutFrom(sent: seq<SentPacket>, sent': seq<SentPacket>, i: nat) {
    && |sent'| == |sent|
    && (forall j :: 0 <= j < i && j < |sent| ==> sent'[j] == sent[j])
    && (forall j :: i <= j < |sent| ==>
          sent'[j] == if sent[j].acked || sent[j].nacked then sent[j] else sent[j].(timedOut := true))
  }

  lemma {:induction false} TimeOutAll(cfg: Config, s: Sender, i: nat, clock: Clock)
    requires s.permits == 0 && s.rtxTimeoutPending && i <= |s.sent|
    requires forall j :: 0 <= j < |s.sent| ==> s.sent[j].timer <= clock.now
    ensures var s' := RetransmitFrom(cfg, s, i, clock);
      && TimesOutFrom(s.sent, s'.sent, i) && !s'.rtxTimeoutPending
      && (s.rtxPending || SomeNeedy(s'.sent, i) ==> s'.rtxPending)
      && s'.permits == 0 && s'.wire == s.wire && s'.highestSent == s.highestSent
      && (s.cwnd > 0 && cfg.mss > 0 ==> s'.cwnd > 0)
    decreases |s.sent| - i
  {
    hide OutstandingBytes, TimeoutOne, RetransmitOne, SomeNeedy;
    if i == |s.sent| {
      assert !SomeNeedy(s.sent, i) by { NoneNeedy(s.sent); }
    } else {
      var s2 := TimeOutOne(cfg, s, i, clock);
      TimeOutAll(cfg, s2, i + 1, clock);
      var s' := RetransmitFrom(cfg, s2, i + 1, clock);
      OneMoreNeedy(s'.sent, i);
      assert s'.sent[i] == s2.sent[i];
    }
  }

  lemma NoneNeedy(sent: seq<SentPacket>)
    ensures !SomeNeedy(sent, |sent|)
  {
  }

  lemma OneMoreNeedy(sent: seq<SentPacket>, i: nat)
    requires i < |sent|
    ensures SomeNeedy(sent, i) ==> Needy(sent[i]) || SomeNeedy(sent, i + 1)
  {
  }

  /** One turn of that loop. */
  lemma TimeOutOne(cfg: Config, s: Sender, i: nat, clock: Clock) returns (s2: Sender)
    requires s.permits == 0 && s.rtxTimeoutPending && i < |s.sent| && s.sent[i].timer <= clock.now
    ensures s2 == RetransmitOne(cfg, TimeoutOne(cfg, s, i, clock), i, clock)
    ensures s2.sent == if s.sent[i].acked || s.sent[i].nacked then s.sent else s.sent[i := s.sent[i].(timedOut := true)]
    ensures s2.rtxPending == (s.rtxPending || Needy(s2.sent[i]))
    ensures s2.permits == 0 && s2.rtxTimeoutPending && s2.wire == s.wire && s2.highestSent == s.highestSent
    ensures s.cwnd > 0 && cfg.mss > 0 ==> s2.cwnd > 0
  {
    hide OutstandingBytes;
    s2 := RetransmitOne(cfg, TimeoutOne(cfg, s, i, clock), i, clock);
  }

  // ---------------------------------------------------------------- one packet at a time

  /** Nothing in flight, everything settled, and a retransmission pending. */
  ghost predicate Primed(cfg: Config, st: State)
    requires cfg.Valid()
  {
    && Inv(cfg, st) && st.net == multiset{} && st.src.rtxPending && !st.src.rtxTimeoutPending
    && AllSettled(st.src.sent, 0) && st.src.cwnd > 0
  }

  /** Where a lost packet stands: beyond what was acknowledged cumulatively, in the list, not acknowledged. */
  lemma LostIsListed(cfg: Config, st: State, x: nat)
    requires cfg.Valid() && Inv(cfg, st) && WasSent(cfg.mss, st.src.highestSent, x) && x !in st.hist.got
    ensures x > st.sink.cumulativeAck >= st.hist.maxCum
    ensures var i := IndexOf(st.src.sent, x); i < |st.src.sent| && !st.src.sent[i].acked
    ensures st.src.sent[0].seqno == st.hist.maxCum + 1 && !st.src.sent[0].acked
  {
    hide NetInv, CountNacked;
    FindInWindow(cfg.mss, st.src.sent, st.hist.maxCum, st.src.highestSent, x);
  }

  /** The head was sent again; the rest of the list is settled. */
  ghost predicate HeadSent(cfg: Config, st: State, h: nat)
    requires cfg.Valid()
  {
    && Inv(cfg, st) && st.src.sent != [] && st.src.sent[0].seqno == h == st.hist.maxCum + 1
    && AllSettled(st.src.sent, 1) && !st.src.rtxTimeoutPending && st.src.cwnd > 0
  }

  /** The loop sends the head with its one permit and refuses the rest. */
  lemma ResendsHead(cfg: Config, s: Sender, clock: Clock)
    requires s.rtxPending && !s.rtxTimeoutPending && s.permits == 1 && s.cwnd > 0 && s.wire == []
    requires s.sent != [] && AllSettled(s.sent, 0) && !s.sent[0].acked
    ensures var s', h := SendPackets(cfg, s, clock), s.sent[0].seqno;
      && s'.wire == [h] && |s'.sent| == |s.sent| && s'.sent[1..] == s.sent[1..] && s'.sent[0].seqno == h
      && !s'.rtxTimeoutPending && s'.rtxPending == SomeNeedy(s.sent, 1) && s'.cwnd == s.cwnd
  {
    hide OutstandingBytes, MinTimeout, SomeNeedy;
    SettledBytes(cfg.mss, s.sent);
    var s0 := s.(rtxPending := false);
    assert TimeoutOne(cfg, s0, 0, clock) == s0 && CanResend(cfg, s0);
    var s1 := ResendPacket(cfg, s0, 0, clock);
    assert RetransmitOne(cfg, s0, 0, clock) == s1;
    assert s1.sent[1..] == s.sent[1..] && [] + [s.sent[0].seqno] == [s.sent[0].seqno];
    RefuseAll(cfg, s1, 1, clock);
    SameNeedy(s.sent, s1.sent);
    assert RetransmitFrom(cfg, s0, 0, clock) == s1.(rtxPending := SomeNeedy(s.sent, 1));
  }

  lemma SameNeedy(a: seq<SentPacket>, b: seq<SentPacket>)
    requires |a| == |b| > 0 && a[1..] == b[1..]
    ensures SomeNeedy(a, 1) == SomeNeedy(b, 1) && (AllSettled(a, 1) <==> AllSettled(b, 1))
  {
    assert forall j :: 1 <= j < |a| ==> a[j] == a[1..][j-1] && b[j] == b[1..][j-1];
  }

  lemma HeadStep(cfg: Config, st: State, x: nat) returns (st': State)
    requires cfg.Valid() && Primed(cfg, st) && Lost(cfg, st, x)
    ensures Enabled(st, PacedSend(Clock(0, 0), 1)) && Next(cfg, st, PacedSend(Clock(0, 0), 1)) == Some(st')
    ensures HeadSent(cfg, st', st'.hist.maxCum + 1) && st'.net == multiset{Data(st'.hist.maxCum + 1)}
    ensures st'.hist == st.hist && st'.src.highestSent == st.src.highestSent
    ensures st'.hist.maxCum + 1 != x ==> st'.src.rtxPending
  {
    hide SendPackets, Chain, HistoryInv, NetInv, CountNacked, WireMsgs, SomeNeedy;
    LostIsListed(cfg, st, x);
    LostIsNeedy(cfg, st, x);
    var s := st.src.(permits := 1);
    assert AllSettled(s.sent, 1);
    ResendsHead(cfg, s, Clock(0, 0));
    var s' := SendPackets(cfg, s, Clock(0, 0));
    SameNeedy(s.sent, s'.sent);
    st' := Next(cfg, st, PacedSend(Clock(0, 0), 1)).value;
    NextInv(cfg, st, PacedSend(Clock(0, 0), 1));
    OneOnTheWire(s'.wire, s.sent[0].seqno);
    HighestKept(cfg, st, st');
  }

  lemma OneOnTheWire(wire: seq<nat>, h: nat)
    requires wire == [h]
    ensures multiset{} + WireMsgs(wire) == multiset{Data(h)}
  {
    assert wire[..0] == [];
  }

  /** The list ends at the highest packet sent, so one of the same length and first packet has the same highest. */
  lemma HighestKept(cfg: Config, st: State, st': State)
    requires cfg.Valid() && Inv(cfg, st) && Inv(cfg, st') && |st'.src.sent| == |st.src.sent| > 0
    requires st'.src.sent[0].seqno == st.src.sent[0].seqno && st'.src.sent[1..] == st.src.sent[1..]
    ensures st'.src.highestSent == st.src.highestSent
  {
    hide HistoryInv, NetInv, CountNacked, Chain, Aligned;
    var n := |st.src.sent| - 1;
    assert n > 0 ==> st'.src.sent[n] == st'.src.sent[1..][n-1] && st.src.sent[n] == st.src.sent[1..][n-1];
  }

  lemma ArriveStep(cfg: Config, st: State, h: nat, x: nat) returns (st': State, c: nat)
    requires cfg.Valid() && HeadSent(cfg, st, h) && st.net == multiset{Data(h)}
    requires WasSent(cfg.mss, st.src.highestSent, x) && x !in st.hist.got && x != h
    ensures Enabled(st, Arrive(Data(h))) && Next(cfg, st, Arrive(Data(h))) == Some(st')
    ensures HeadSent(cfg, st', h) && st'.net == multiset{Ack(1, c, h)} && st'.src == st.src
    ensures h <= c == st'.sink.cumulativeAck && x !in st'.hist.got && st'.hist.maxCum == st.hist.maxCum
  {
    hide Chain, NetInv, CountNacked, AllSettled, K.Reassembles, K.Absorb, K.Insert;
    st' := Next(cfg, st, Arrive(Data(h))).value;
    NextInv(cfg, st, Arrive(Data(h)));
    LostIsListed(cfg, st, x);
    var reply := K.Receive(cfg.mss, st.sink, h, false).1;
    c := reply.ackno;
    HeadReply(cfg, st, h);
    assert multiset{Data(h)} - multiset{Data(h)} + multiset{reply} == multiset{reply};
  }

  /** The head is at most the next packet the sink expects, so its arrival is answered cumulatively. */
  lemma HeadReply(cfg: Config, st: State, h: nat)
    requires cfg.Valid() && Inv(cfg, st) && h == st.hist.maxCum + 1
    ensures var (k', reply) := K.Receive(cfg.mss, st.sink, h, false);
      reply == Ack(1, k'.cumulativeAck, h) && h <= k'.cumulativeAck
  {
    hide SenderInv, NetInv;
    var k := st.sink;
    assert h <= k.cumulativeAck + 1;
    if h == k.cumulativeAck + 1 {
      assert h !in k.received;
      BbrAbsorbGrows(cfg.mss, k.(cumulativeAck := h + cfg.mss - 1));
    }
  }

  lemma {:induction false} BbrAbsorbGrows(mss: nat, k: K.Sink)
    ensures K.Absorb(mss, k).cumulativeAck >= k.cumulativeAck
    decreases |k.received|
  {
    if k.received != [] && k.received[0] == k.cumulativeAck + 1 {
      BbrAbsorbGrows(mss, K.Sink(k.cumulativeAck + mss, k.received[1..]));
    }
  }

  /** The cumulative acknowledgement takes the head off the list and leaves a primed state. */
  lemma AckStep(cfg: Config, st: State, h: nat, c: nat, x: nat) returns (st': State)
    requires cfg.Valid() && HeadSent(cfg, st, h) && st.net == multiset{Ack(1, c, h)} && h <= c == st.sink.cumulativeAck
    requires WasSent(cfg.mss, st.src.highestSent, x) && x !in st.hist.got
    requires st.src.rtxPending
    ensures Enabled(st, Feedback(Ack(1, c, h), Clock(0, 0), 0))
    ensures Next(cfg, st, Feedback(Ack(1, c, h), Clock(0, 0), 0)) == Some(st')
    ensures Primed(cfg, st') && Lost(cfg, st', x) && st'.hist.maxCum > st.hist.maxCum
    ensures st'.src.highestSent == st.src.highestSent
  {
    hide SendPackets, HistoryInv, NetInv, Window, CountNacked, WireMsgs, SomeNeedy, AllSettled, MinTimeout, DropAcked, WasSent, Needy, Settled;
    var step := Feedback(Ack(1, c, h), Clock(0, 0), 0);
    var s1 := AckedSender(cfg, st, h, c, x);
    SendsRefused(cfg, s1, Clock(0, 0));
    NothingOnTheWire(st.net - multiset{Ack(1, c, h)});
    st' := Next(cfg, st, step).value;
    NextInv(cfg, st, step);
    DroppedHead(cfg, st, st', h, c);
    LostIsNeedy(cfg, st', x);
    assert st'.net == multiset{};
  }

  lemma CumulativeIsKnown(cfg: Config, st: State, h: nat, c: nat)
    requires cfg.Valid() && Inv(cfg, st) && Ack(1, c, h) in st.net
    ensures c in st.hist.cums
  {
    hide SenderInv, HistoryInv;
    assert MsgOk(cfg, Ack(1, c, h), st.hist, st.src.highestSent);
  }

  /** The sender after it has marked the acknowledgement, before it sends. */
  lemma AckedSender(cfg: Config, st: State, h: nat, c: nat, x: nat) returns (s1: Sender)
    requires cfg.Valid() && HeadSent(cfg, st, h) && st.net == multiset{Ack(1, c, h)} && h <= c == st.sink.cumulativeAck
    requires WasSent(cfg.mss, st.src.highestSent, x) && x !in st.hist.got
    ensures s1.permits == 0 && s1.wire == [] && s1.rtxPending == st.src.rtxPending && !s1.rtxTimeoutPending
    ensures s1.sent == DropAcked(st.src.sent, c) && s1.highestSent == st.src.highestSent && s1.cwnd > 0
    ensures ReceivePacket(cfg, st.src.(permits := 0), Ack(1, c, h), Clock(0, 0)) == Some(SendPackets(cfg, s1, Clock(0, 0)))
  {
    hide SendPackets, Chain, NetInv, CountNacked, MinTimeout, DropAcked, AllSettled, K.Reassembles;
    CumulativeIsKnown(cfg, st, h, c);
    var s0 := ReduceUnacked(st.src.(permits := 0), cfg.mss);
    ReceiveCopiesInv(cfg, st, s0);
    MarkCumulativeInv(cfg, s0, c, st.sink, st.hist);
    CumulativeIsSent(cfg, st.sink, st.hist, st.src.highestSent);
    LostIsListed(cfg, st, x);
    var marked := UpdateRtxTime(s0.(sent := DropAcked(s0.sent, c)));
    FindInWindow(cfg.mss, marked.sent, Max(c, st.hist.maxCum), marked.highestSent, x);
    s1 := marked.(lastAcked := c);
    assert marked.(highestSent := if c >= marked.highestSent then c else marked.highestSent, lastAcked := c) == s1;
  }

  lemma DroppedHead(cfg: Config, st: State, st': State, h: nat, c: nat)
    requires cfg.Valid() && HeadSent(cfg, st, h) && h <= c && Inv(cfg, st')
    requires st'.src.sent == DropAcked(st.src.sent, c) && st'.hist.maxCum >= c
    ensures AllSettled(st'.src.sent, 0)
  {
    hide HistoryInv, NetInv, CountNacked, DropAcked, Settled;
    DropsTail(st.src.sent, c);
    var sent' := st'.src.sent;
    forall i | 0 <= i < |sent'| ensures Settled(sent'[i]) {
      WindowHighest(cfg.mss, sent', st'.hist.maxCum, st'.src.highestSent);
      assert sent'[i] in st.src.sent;
      var j :| 0 <= j < |st.src.sent| && st.src.sent[j] == sent'[i];
      assert j != 0;
    }
  }

  lemma LostIsNeedy(cfg: Config, st: State, x: nat)
    requires cfg.Valid() && Inv(cfg, st) && WasSent(cfg.mss, st.src.highestSent, x) && x !in st.hist.got
    requires AllSettled(st.src.sent, 0)
    ensures SomeNeedy(st.src.sent, 0)
    ensures st.hist.maxCum + 1 != x ==> SomeNeedy(st.src.sent, 1)
  {
    hide Inv;
    LostIsListed(cfg, st, x);
    var i := IndexOf(st.src.sent, x);
    assert Settled(st.src.sent[i]);
    assert Needy(st.src.sent[i]);
  }

  /** From a primed state every lost packet can still reach the sink: the packets before it in the list are sent again one
      by one, arrive and are acknowledged, until it is the head. */
  lemma {:induction false} RepairPrimed(cfg: Config, st: State, x: nat)
    requires cfg.Valid() && Primed(cfg, st) && Lost(cfg, st, x)
    ensures Repairable(cfg, st, x)
    decreases st.src.highestSent - st.hist.maxCum
  {
    hide Next, Primed, HeadSent, Repairable;
    var h := st.hist.maxCum + 1;
    var st1 := HeadStep(cfg, st, x);
    if h == x {
      var st2 := LostArrives(cfg, st1, x);
      RepairLater(cfg, st1, Arrive(Data(x)), st2, x);
    } else {
      var st2, c := ArriveStep(cfg, st1, h, x);
      var st3 := AckStep(cfg, st2, h, c, x);
      MaxCumBounded(cfg, st);
      RepairPrimed(cfg, st3, x);
      RepairLater(cfg, st2, Feedback(Ack(1, c, h), Clock(0, 0), 0), st3, x);
      RepairLater(cfg, st1, Arrive(Data(h)), st2, x);
    }
    RepairLater(cfg, st, PacedSend(Clock(0, 0), 1), st1, x);
  }

  lemma LostArrives(cfg: Config, st: State, x: nat) returns (st': State)
    requires cfg.Valid() && Data(x) in st.net
    ensures Enabled(st, Arrive(Data(x))) && Next(cfg, st, Arrive(Data(x))) == Some(st') && Repairable(cfg, st', x)
  {
    hide K.Receive;
    st' := Next(cfg, st, Arrive(Data(x))).value;
    RepairedAlready(cfg, st', x);
  }

  lemma MaxCumBounded(cfg: Config, st: State)
    requires cfg.Valid() && Primed(cfg, st)
    ensures st.hist.maxCum <= st.src.highestSent
  {
    hide HistoryInv, NetInv, CountNacked, Chain, AllSettled;
    WindowHighest(cfg.mss, st.src.sent, st.hist.maxCum, st.src.highestSent);
  }

  // ---------------------------------------------------------------- getting there

  /** A time by which every timer has run out. */
  function {:induction false} Latest(sent: seq<SentPacket>): (t: nat)
    ensures forall i :: 0 <= i < |sent| ==> sent[i].timer <= t
  {
    if sent == [] then 0
    else Max(Latest(sent[..|sent|-1]), sent[|sent|-1].timer)
  }

  /** With a retransmission pending, a timer scan and a turn of the pacer without a permit time everything out. */
  lemma RepairPending(cfg: Config, st: State, x: nat)
    requires cfg.Valid() && Inv(cfg, st) && st.net == multiset{} && st.src.rtxPending
    requires Lost(cfg, st, x) && TimerOk(st.src)
    ensures Repairable(cfg, st, x)
  {
    hide Next, Inv, Lost, Repairable, TimerOk;
    assert st.src.cwnd > 0 by { WindowOpen(cfg, st, x); }
    if st.src.rtxTimeoutPending {
      RepairTimedOut(cfg, st, x);
    } else if AllSettled(st.src.sent, 0) {
      assert Primed(cfg, st);
      RepairPrimed(cfg, st, x);
    } else {
      var st1 := ScanStep(cfg, st, x);
      RepairTimedOut(cfg, st1, x);
      RepairLater(cfg, st, TimerScan(st.src.rtxTimeout, 0), st1, x);
    }
  }

  lemma WindowOpen(cfg: Config, st: State, x: nat)
    requires cfg.Valid() && Lost(cfg, st, x) && TimerOk(st.src)
    ensures st.src.cwnd > 0
  {
  }

  lemma ScanStep(cfg: Config, st: State, x: nat) returns (st': State)
    requires cfg.Valid() && Inv(cfg, st) && st.net == multiset{} && st.src.rtxPending && !st.src.rtxTimeoutPending
    requires Lost(cfg, st, x) && TimerOk(st.src) && !AllSettled(st.src.sent, 0)
    ensures Enabled(st, TimerScan(st.src.rtxTimeout, 0)) && Next(cfg, st, TimerScan(st.src.rtxTimeout, 0)) == Some(st')
    ensures Inv(cfg, st') && st'.net == multiset{} && st'.src.rtxPending && st'.src.rtxTimeoutPending && Lost(cfg, st', x)
    ensures st'.src.cwnd > 0
  {
    hide SenderInv, HistoryInv, NetInv;
    var step := TimerScan(st.src.rtxTimeout, 0);
    var i :| 0 <= i < |st.src.sent| && !Settled(st.src.sent[i]);
    assert st.src.sent[i].Outstanding();
    assert st.src.highestSent > 0;
    st' := Next(cfg, st, step).value;
    NextInv(cfg, st, step);
  }

  lemma RepairTimedOut(cfg: Config, st: State, x: nat)
    requires cfg.Valid() && Inv(cfg, st) && st.net == multiset{} && st.src.rtxPending
    requires Lost(cfg, st, x) && st.src.rtxTimeoutPending && st.src.cwnd > 0
    ensures Repairable(cfg, st, x)
  {
    hide SendPackets, Repairable, SenderInv, HistoryInv, NetInv, SomeNeedy, WireMsgs, AllSettled;
    var clock := Clock(Latest(st.src.sent), 0);
    var step := PacedSend(clock, 0);
    var s := st.src.(permits := 0);
    TimesEverythingOut(cfg, s, clock);
    var s' := SendPackets(cfg, s, clock);
    NothingOnTheWire(st.net);
    var st' := Next(cfg, st, step).value;
    NextInv(cfg, st, step);
    LostIsNeedy(cfg, st', x);
    RepairPrimed(cfg, st', x);
    RepairLater(cfg, st, step, st', x);
  }

  lemma TimesEverythingOut(cfg: Config, s: Sender, clock: Clock)
    requires s.permits == 0 && s.rtxPending && s.rtxTimeoutPending && s.wire == []
    requires forall j :: 0 <= j < |s.sent| ==> s.sent[j].timer <= clock.now
    ensures var s' := SendPackets(cfg, s, clock);
      && AllSettled(s'.sent, 0) && (SomeNeedy(s'.sent, 0) ==> s'.rtxPending) && !s'.rtxTimeoutPending
      && s'.wire == [] && s'.highestSent == s.highestSent && (s.cwnd > 0 && cfg.mss > 0 ==> s'.cwnd > 0)
  {
    hide RetransmitFrom, OutstandingBytes, SomeNeedy;
    TimeOutAll(cfg, s.(rtxPending := false), 0, clock);
  }

  // ---------------------------------------------------------------- a new packet makes it happen

  lemma TrimStep(cfg: Config, st: State, y: nat) returns (st': State)
    requires cfg.Valid() && Inv(cfg, st) && st.net == multiset{Data(y)}
    ensures Enabled(st, Trim(y)) && Next(cfg, st, Trim(y)) == Some(st')
    ensures Inv(cfg, st') && st' == st.(net := multiset{Header(y)})
  {
    hide Inv;
    st' := Next(cfg, st, Trim(y)).value;
    NextInv(cfg, st, Trim(y));
    assert multiset{Data(y)} - multiset{Data(y)} + multiset{Header(y)} == multiset{Header(y)};
  }

  lemma HeaderStep(cfg: Config, st: State, y: nat) returns (st': State)
    requires cfg.Valid() && Inv(cfg, st) && st.net == multiset{Header(y)} && y !in st.hist.got && IsSeq(cfg.mss, y)
    ensures Enabled(st, Arrive(Header(y))) && Next(cfg, st, Arrive(Header(y))) == Some(st')
    ensures Inv(cfg, st') && st' == st.(net := multiset{Nack(y, y + cfg.mss - 1)})
  {
    hide SenderInv, NetInv;
    assert !K.AlreadyReceived(st.sink, y);
    st' := Next(cfg, st, Arrive(Header(y))).value;
    NextInv(cfg, st, Arrive(Header(y)));
    var reply := Nack(y, y + cfg.mss - 1);
    assert multiset{Header(y)} - multiset{Header(y)} + multiset{reply} == multiset{reply};
  }

  lemma RefusedStep(cfg: Config, st: State, y: nat, ackno: nat) returns (st': State)
    requires cfg.Valid() && Inv(cfg, st) && st.net == multiset{Nack(y, ackno)}
    requires WasSent(cfg.mss, st.src.highestSent, y) && y !in st.hist.got
    ensures Enabled(st, Feedback(Nack(y, ackno), Clock(0, 0), 0))
    ensures Next(cfg, st, Feedback(Nack(y, ackno), Clock(0, 0), 0)) == Some(st')
    ensures Inv(cfg, st') && st'.net == multiset{} && st'.src.rtxPending && st'.hist == st.hist
    ensures st'.src.highestSent == st.src.highestSent
  {
    hide OutstandingBytes, MinTimeout, SenderInv, HistoryInv, NetInv, IndexOf, WireMsgs;
    LostIsListed(cfg, st, y);
    var step := Feedback(Nack(y, ackno), Clock(0, 0), 0);
    var s := LimitCwnd(cfg, ReduceUnacked(st.src.(permits := 0), cfg.mss));
    var i := IndexOf(s.sent, y);
    assert ReceivePacket(cfg, st.src.(permits := 0), Nack(y, ackno), Clock(0, 0)) ==
      Some(MarkNacked(s, i).(rtxPending := true));
    NothingOnTheWire(st.net - multiset{Nack(y, ackno)});
    st' := Next(cfg, st, step).value;
    NextInv(cfg, st, step);
  }

  /** If there is room for a new packet, it is sent and trimmed, and its negative acknowledgement is refused: from then on a
      retransmission is pending. */
  lemma RepairBySending(cfg: Config, st: State, x: nat)
    requires cfg.Valid() && cfg.mss <= cfg.bdp && cfg.rto > 0 && Inv(cfg, st) && Quiet(st) && CanEverSend(cfg, st.src)
    requires Lost(cfg, st, x) && TimerOk(st.src)
    ensures Repairable(cfg, st, x)
  {
    hide Next, Inv, Repairable, TimerOk, CanEverSend;
    var y := st.src.highestSent + 1;
    var st1 := NewStep(cfg, st, x);
    var st2 := TrimStep(cfg, st1, y);
    var st3 := HeaderStep(cfg, st2, y);
    var st4 := RefusedStep(cfg, st3, y, y + cfg.mss - 1);
    NextTimerOk(cfg, st, SendingStep(cfg, st.src, 1));
    NextTimerOk(cfg, st3, Feedback(Nack(y, y + cfg.mss - 1), Clock(0, 0), 0));
    RepairPending(cfg, st4, x);
    RepairLater(cfg, st3, Feedback(Nack(y, y + cfg.mss - 1), Clock(0, 0), 0), st4, x);
    RepairLater(cfg, st2, Arrive(Header(y)), st3, x);
    RepairLater(cfg, st1, Trim(y), st2, x);
    RepairLater(cfg, st, SendingStep(cfg, st.src, 1), st1, x);
  }

  lemma NewStep(cfg: Config, st: State, x: nat) returns (st1: State)
    requires cfg.Valid() && Inv(cfg, st) && Quiet(st) && CanEverSend(cfg, st.src) && Lost(cfg, st, x)
    ensures Enabled(st, SendingStep(cfg, st.src, 1)) && Next(cfg, st, SendingStep(cfg, st.src, 1)) == Some(st1)
    ensures var y := st.src.highestSent + 1;
      && Inv(cfg, st1) && st1.net == multiset{Data(y)} && st1.hist == st.hist
      && y !in st.hist.got && WasSent(cfg.mss, st1.src.highestSent, y) && WasSent(cfg.mss, st1.src.highestSent, x)
  {
    hide OutstandingBytes, MinTimeout, SenderInv, NetInv, K.Reassembles, Aligned, WireMsgs, CanSendNew;
    SendsOne(cfg, st);
    var step := SendingStep(cfg, st.src, 1);
    st1 := Next(cfg, st, step).value;
    NextInv(cfg, st, step);
    HighestAligned(cfg, st);
    var y := st.src.highestSent + 1;
    assert y in st.hist.got ==> WasSent(cfg.mss, st.src.highestSent, y);
    OneOnTheWire(st.src.wire + [y], y);
  }

  /** Exactly when a lost packet can still reach the sink once nothing is in flight: a retransmission is pending, of whatever
      packet, or there is room for a new packet, in the present window or in the one a restart sets. Otherwise nothing
      that the timer or the network does repairs the loss. */
  lemma RepairIff(cfg: Config, startingCwnd: nat, steps: seq<Step>, st: State, x: nat)
    requires cfg.Valid() && cfg.mss <= cfg.bdp && cfg.rto > 0 && Run(cfg, startingCwnd, steps, st)
    requires st.net == multiset{} && Lost(cfg, st, x)
    ensures Repairable(cfg, st, x) <==> st.src.rtxPending || CanEverSend(cfg, st.src)
  {
    hide Next, SenderInv, HistoryInv, NetInv, CanEverSend;
    InitInv(cfg, startingCwnd);
    RunInv(cfg, startingCwnd, steps, st);
    ReachesTimerOk(cfg, InitState(startingCwnd), steps, st);
    if st.src.rtxPending {
      RepairPending(cfg, st, x);
    } else if CanEverSend(cfg, st.src) {
      RepairBySending(cfg, st, x);
    } else {
      forall more, st' | Reaches(cfg, st, more, st') ensures x !in st'.hist.got {
        QuietForever(cfg, st, more, st');
      }
    }
  }
}
