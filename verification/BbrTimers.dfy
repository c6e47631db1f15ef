/** The timer of every outstanding packet, over whole runs: it runs from the packet's last transmission, and no
    packet times out, or is sent again without a negative acknowledgement, before it has run out. */
module BbrTimers {
  import opened Basics
  import opened BbrTypes
  import opened BbrSender
  import opened BbrProtocol
  import opened BbrRetransmit
  import O = BbrOnce
  import R = BbrRepair
  import S = BbrSafety

  /** When each packet was last handed to the network, service time included, and the latest activation so far. */
  datatype Times = Times(last: map<nat, nat>, latest: nat)

  function NoTimes(): Times { Times(map[], 0) }

  function Recorded(h: Times, wire: seq<nat>, clock: Clock): Times {
    Times(h.last + (map x | x in wire :: clock.now + clock.service), Max(h.latest, clock.now))
  }

  /** Each timer is the retransmission timeout after the last transmission, and has run out if it is flagged. */
  ghost predicate Timed(cfg: Config, sent: seq<SentPacket>, h: Times) {
    forall i :: 0 <= i < |sent| ==> TimedOne(cfg, sent[i], h)
  }

  predicate TimedOne(cfg: Config, sp: SentPacket, h: Times) {
    && sp.seqno in h.last && sp.timer == h.last[sp.seqno] + cfg.rto
    && (sp.timedOut ==> RunOut(cfg, sp.seqno, h))
  }

  predicate RunOut(cfg: Config, x: nat, h: Times) {
    x in h.last && h.last[x] + cfg.rto <= h.latest + cfg.rtoMargin
  }

  /** No packet is listed twice, and none that was not sent. */
  ghost predicate Listed(s: Sender) {
    && (forall i, j :: 0 <= i < j < |s.sent| ==> s.sent[i].seqno != s.sent[j].seqno)
    && (forall i :: 0 <= i < |s.sent| ==> s.sent[i].seqno <= s.highestSent)
  }

  lemma IsListed(cfg: Config, s: Sender, h: History)
    requires cfg.Valid() && SenderInv(cfg, s, h)
    ensures Listed(s)
  {
    WindowHighest(cfg.mss, s.sent, h.maxCum, s.highestSent);
  }

  // ---------------------------------------------------------------- one activation

  lemma {:induction false} ResentMembers(sent: seq<SentPacket>, again: seq<bool>, from: nat, to: nat, x: nat)
    requires |again| == |sent| && from <= to <= |sent|
    ensures x in Resent(sent, again, from, to) <==> exists j :: from <= j < to && again[j] && sent[j].seqno == x
    decreases |sent| - from
  {
    if from == to {
    } else {
      ResentMembers(sent, again, from + 1, to, x);
      ResentFirst(sent, again, from, to);
      hide Resent;
      if exists j :: from <= j < to && again[j] && sent[j].seqno == x {
        var j :| from <= j < to && again[j] && sent[j].seqno == x;
        assert j == from || from + 1 <= j;
      }
    }
  }

  /** A packet of the list is among those sent again exactly if its own turn sent it. */
  lemma ResentOnlyOnce(s: Sender, again: seq<bool>, i: nat)
    requires |again| == |s.sent| && Listed(s) && i < |s.sent|
    ensures s.sent[i].seqno in Resent(s.sent, again, 0, |s.sent|) <==> again[i]
  {
    hide Resent;
    ResentMembers(s.sent, again, 0, |s.sent|, s.sent[i].seqno);
  }

  lemma EntryTimed(cfg: Config, pending: bool, sp: SentPacket, again: bool, wire: seq<nat>, h: Times, clock: Clock)
    requires TimedOne(cfg, sp, h) && (sp.seqno in wire <==> again)
    ensures TimedOne(cfg, Entry(cfg, pending, sp, again, clock), Recorded(h, wire, clock))
  {
  }

  lemma LoopTimed(cfg: Config, s: Sender, clock: Clock, h: Times)
    requires Timed(cfg, s.sent, h) && Listed(s) && s.wire == []
    ensures var s' := RetransmitFrom(cfg, s, 0, clock); Timed(cfg, s'.sent, Recorded(h, s'.wire, clock)) && Listed(s')
  {
    hide AgainIff, AnyRefused, AnyExpired, Entry, Resent, TimedOne, RetransmitFrom, WindowAt, Recorded;
    var again := LoopRetransmits(cfg, s, 0, clock);
    var s' := RetransmitFrom(cfg, s, 0, clock);
    forall i | 0 <= i < |s.sent| ensures TimedOne(cfg, s'.sent[i], Recorded(h, s'.wire, clock)) {
      ResentOnlyOnce(s, again, i);
      EntryTimed(cfg, s.rtxTimeoutPending, s.sent[i], again[i], s'.wire, h, clock);
    }
    assert forall i :: 0 <= i < |s.sent| ==> s'.sent[i].seqno == s.sent[i].seqno by { EntrySeqno(cfg); }
  }

  lemma EntrySeqno(cfg: Config)
    ensures forall pending, sp, again, clock :: Entry(cfg, pending, sp, again, clock).seqno == sp.seqno
  {
  }

  lemma StillTimed(cfg: Config, sp: SentPacket, wire: seq<nat>, x: nat, h: Times, clock: Clock)
    requires TimedOne(cfg, sp, Recorded(h, wire, clock)) && sp.seqno != x
    ensures TimedOne(cfg, sp, Recorded(h, wire + [x], clock))
  {
  }

  lemma NewTimed(cfg: Config, wire: seq<nat>, x: nat, h: Times, clock: Clock)
    ensures TimedOne(cfg, SentPacket(clock.now + clock.service + cfg.rto, x, false, false, false), Recorded(h, wire + [x], clock))
  {
    assert x in wire + [x];
  }

  lemma SendNewTimed(cfg: Config, s: Sender, clock: Clock, h: Times)
    requires cfg.Valid() && CanSendNew(cfg, s) && Timed(cfg, s.sent, Recorded(h, s.wire, clock)) && Listed(s)
    ensures var s' := SendNew(cfg, s, clock); Timed(cfg, s'.sent, Recorded(h, s'.wire, clock)) && Listed(s')
  {
    hide CanSendNew, MinTimeout, TimedOne, Recorded;
    var s', x := SendNew(cfg, s, clock), s.highestSent + 1;
    forall i | 0 <= i < |s'.sent| ensures TimedOne(cfg, s'.sent[i], Recorded(h, s'.wire, clock)) {
      if i < |s.sent| {
        StillTimed(cfg, s.sent[i], s.wire, x, h, clock);
      } else {
        NewTimed(cfg, s.wire, x, h, clock);
      }
    }
  }

  lemma {:induction false} SendLoopTimed(cfg: Config, s: Sender, clock: Clock, h: Times)
    requires cfg.Valid() && Timed(cfg, s.sent, Recorded(h, s.wire, clock)) && Listed(s)
    ensures var s' := SendLoop(cfg, s, clock);
      && Timed(cfg, s'.sent, Recorded(h, s'.wire, clock))
      && forall x :: x in s'.wire ==> x in s.wire || x > s.highestSent
    decreases s.permits
  {
    hide CanSendNew, Timed, Recorded, Listed, MinTimeout;
    if CanSendNew(cfg, s) {
      SendNewTimed(cfg, s, clock, h);
      SendLoopTimed(cfg, SendNew(cfg, s, clock), clock, h);
    }
  }

  /** A listed packet that an activation at `clock` has reason to send again. */
  ghost predicate Due(cfg: Config, s: Sender, x: nat, clock: Clock) {
    exists i :: 0 <= i < |s.sent| && s.sent[i].seqno == x && R.Needy(Flagged(cfg, s.rtxTimeoutPending, s.sent[i], clock))
  }

  lemma LoopSendsDue(cfg: Config, s: Sender, clock: Clock, x: nat)
    requires s.wire == [] && x in RetransmitFrom(cfg, s, 0, clock).wire
    ensures Due(cfg, s, x, clock)
  {
    hide Resent, RetransmitFrom, AnyRefused, WindowAt, Entry, Flagged, OutstandingBytes;
    var again := LoopRetransmits(cfg, s, 0, clock);
    ResentMembers(s.sent, again, 0, |s.sent|, x);
    var j :| 0 <= j < |s.sent| && again[j] && s.sent[j].seqno == x;
    assert AgainIff(cfg, s, RetransmitFrom(cfg, s, 0, clock), again, 0, j, clock);
  }

  /** Sending keeps the timers exact and sends again only what is due. */
  lemma SendPacketsTimed(cfg: Config, s: Sender, clock: Clock, h: Times)
    requires cfg.Valid() && Timed(cfg, s.sent, h) && Listed(s) && s.wire == []
    ensures var s' := SendPackets(cfg, s, clock);
      && Timed(cfg, s'.sent, Recorded(h, s'.wire, clock))
      && forall x :: x in s'.wire && x <= s.highestSent ==> s.rtxPending && Due(cfg, s, x, clock)
  {
    hide SendLoop, RetransmitFrom, Timed, Listed, Recorded, Due;
    var s0 := s.(rtxPending := false);
    if s.rtxPending {
      assert Listed(s0) by { SameList(s, s0); }
      LoopTimed(cfg, s0, clock, h);
      LoopKeepsHighest(cfg, s0, clock);
      SendLoopTimed(cfg, RetransmitFrom(cfg, s0, 0, clock), clock, h);
      forall x | x in RetransmitFrom(cfg, s0, 0, clock).wire ensures Due(cfg, s, x, clock) {
        LoopSendsDue(cfg, s0, clock, x);
        SameDue(cfg, s, s0, x, clock);
      }
    } else {
      NothingRecorded(cfg, s.sent, h, clock);
      SendLoopTimed(cfg, s, clock, h);
    }
  }

  lemma LoopKeepsHighest(cfg: Config, s: Sender, clock: Clock)
    ensures RetransmitFrom(cfg, s, 0, clock).highestSent == s.highestSent
  {
    hide RetransmitFrom;
    var again := LoopRetransmits(cfg, s, 0, clock);
  }

  lemma SameList(s: Sender, s': Sender)
    requires Listed(s) && s'.sent == s.sent && s'.highestSent == s.highestSent
    ensures Listed(s')
  {
  }

  lemma SameDue(cfg: Config, s: Sender, s': Sender, x: nat, clock: Clock)
    requires s'.sent == s.sent && s'.rtxTimeoutPending == s.rtxTimeoutPending
    ensures Due(cfg, s, x, clock) <==> Due(cfg, s', x, clock)
  {
  }

  lemma NothingRecorded(cfg: Config, sent: seq<SentPacket>, h: Times, clock: Clock)
    requires Timed(cfg, sent, h)
    ensures Timed(cfg, sent, Recorded(h, [], clock))
  {
    assert forall i :: 0 <= i < |sent| ==> TimedOne(cfg, sent[i], h);
  }

  // ---------------------------------------------------------------- acknowledgements

  lemma DropTimed(cfg: Config, sent: seq<SentPacket>, ackno: nat, h: Times)
    requires Timed(cfg, sent, h)
    ensures Timed(cfg, DropAcked(sent, ackno), h)
  {
    hide TimedOne, DropAcked;
    DroppedTail(sent, ackno);
  }

  lemma MarkReceivedTimed(cfg: Config, st: State, s: Sender, m: Msg, h: Times)
    requires cfg.Valid() && Inv(cfg, st) && SenderInv(cfg, s, st.hist) && s.highestSent == st.src.highestSent
    requires m in st.net && m.Ack? && Timed(cfg, s.sent, h)
    ensures var r := MarkReceived(cfg, s, m.seqno, m.ackno);
      && r.Some? && Timed(cfg, r.value.sent, h) && SenderInv(cfg, r.value, Acknowledged(st.hist, m))
      && r.value.highestSent == s.highestSent && r.value.wire == s.wire && m.ackno <= s.highestSent
      && r.value.rtxTimeoutPending == s.rtxTimeoutPending && r.value.rtxPending == s.rtxPending
      && forall sp :: sp in r.value.sent ==> sp.acked || sp in s.sent
  {
    hide SenderInv, HistoryInv, NetInv, MinTimeout, DropAcked, DropHeads, TimedOne;
    assert MsgOk(cfg, m, st.hist, st.src.highestSent) by { MessageOk(cfg, st, m); }
    MarkReceivedInv(cfg, s, m, st.sink, st.hist);
    AckSent(cfg, m, st.sink, st.hist, s.highestSent);
    if m.seqno == 1 {
      DropTimed(cfg, s.sent, m.ackno, h);
      DroppedTail(s.sent, m.ackno);
    } else if s.sent != [] && s.sent[0].seqno <= m.ackno {
      OutOfOrderFound(cfg, s, m.seqno, st.sink, st.hist);
      MarkOneTimed(cfg, s.sent, IndexOf(s.sent, m.seqno), h);
    }
  }

  lemma MarkOneTimed(cfg: Config, sent: seq<SentPacket>, i: nat, h: Times)
    requires Timed(cfg, sent, h) && i < |sent|
    ensures Timed(cfg, sent[i := SentPacket(sent[i].timer, sent[i].seqno, true, false, false)], h)
  {
    assert TimedOne(cfg, sent[i], h);
  }

  lemma MessageOk(cfg: Config, st: State, m: Msg)
    requires cfg.Valid() && Inv(cfg, st) && m in st.net
    ensures MsgOk(cfg, m, st.hist, st.src.highestSent)
  {
    hide SenderInv, HistoryInv;
  }

  lemma AckTimed(cfg: Config, st: State, m: Msg, clock: Clock, permits: nat, h: Times)
    requires cfg.Valid() && Inv(cfg, st) && Timed(cfg, st.src.sent, h) && m in st.net && m.Ack?
    ensures var r := ReceivePacket(cfg, st.src.(permits := permits), m, clock);
      && r.Some? && Timed(cfg, r.value.sent, Recorded(h, r.value.wire, clock))
      && forall x :: x in r.value.wire && x <= st.src.highestSent ==> Due(cfg, st.src, x, clock)
  {
    hide MarkReceived, SendPackets, SenderInv, HistoryInv, NetInv, Timed, Recorded, Due, Listed;
    var s := ReduceUnacked(st.src.(permits := permits), cfg.mss);
    O.ReceiveCopiesInv(cfg, st, s);
    MarkReceivedTimed(cfg, st, s, m, h);
    var s1 := MarkReceived(cfg, s, m.seqno, m.ackno).value;
    if m.ackno >= cfg.flowSize && s1.sent == [] && !s1.flowFinished {
      NothingRecorded(cfg, s1.sent, h, clock);
    } else {
      var s2 := s1.(highestSent := if m.ackno >= s1.highestSent then m.ackno else s1.highestSent, lastAcked := m.ackno);
      IsListed(cfg, s1, Acknowledged(st.hist, m));
      SameList(s1, s2);
      SendPacketsTimed(cfg, s2, clock, h);
      forall x | x in SendPackets(cfg, s2, clock).wire && x <= st.src.highestSent ensures Due(cfg, st.src, x, clock) {
        DueBefore(cfg, st.src, s2, x, clock);
      }
    }
  }

  lemma DueBefore(cfg: Config, s: Sender, s': Sender, x: nat, clock: Clock)
    requires Due(cfg, s', x, clock) && s'.rtxTimeoutPending == s.rtxTimeoutPending
    requires forall sp :: sp in s'.sent ==> sp.acked || sp in s.sent
    ensures Due(cfg, s, x, clock)
  {
    var i :| 0 <= i < |s'.sent| && s'.sent[i].seqno == x && R.Needy(Flagged(cfg, s'.rtxTimeoutPending, s'.sent[i], clock));
    assert s'.sent[i] in s.sent;
  }

  lemma NackTimed(cfg: Config, s: Sender, seqno: nat, clock: Clock, h: Times)
    requires Timed(cfg, s.sent, h) && Listed(s) && s.wire == [] && ProcessNack(cfg, s, seqno, clock).Some?
    ensures var s' := ProcessNack(cfg, s, seqno, clock).value;
      Timed(cfg, s'.sent, Recorded(h, s'.wire, clock)) && forall x :: x in s'.wire ==> x == seqno
  {
    hide OutstandingBytes, MinTimeout, IndexOf;
    assert forall i :: 0 <= i < |s.sent| ==> TimedOne(cfg, s.sent[i], h);
  }

  // ---------------------------------------------------------------- over runs

  function TimesAfter(cfg: Config, st: State, step: Step, h: Times): Times
    requires cfg.Valid() && Enabled(st, step)
  {
    if step.Start? || step.PacedSend? || step.Feedback? then Recorded(h, O.TransmittedBy(cfg, st, step), step.clock) else h
  }

  /** When each packet was last sent in a run. */
  function TimesOf(cfg: Config, a: State, steps: seq<Step>, b: State, h: Times): Times
    requires cfg.Valid() && Reaches(cfg, a, steps, b)
    decreases |steps|
  {
    if steps == [] then h
    else TimesOf(cfg, Next(cfg, a, steps[0]).value, steps[1..], b, TimesAfter(cfg, a, steps[0], h))
  }

  lemma StepTimed(cfg: Config, st: State, step: Step, h: Times)
    requires cfg.Valid() && Inv(cfg, st) && Timed(cfg, st.src.sent, h) && Enabled(st, step) && Next(cfg, st, step).Some?
    ensures Timed(cfg, Next(cfg, st, step).value.src.sent, TimesAfter(cfg, st, step, h))
    ensures forall x :: x in O.TransmittedBy(cfg, st, step) && x <= st.src.highestSent ==> SendsDue(cfg, st, step, x)
  {
    hide SendPackets, ReceivePacket, SenderInv, HistoryInv, NetInv, Timed, Recorded, Due, Listed, WireMsgs;
    IsListed(cfg, st.src, st.hist);
    match step
    case Start(clock, permits) =>
      ActivationTimed(cfg, st, st.src.(permits := permits, maxCwnd := cfg.bdp, cwnd := cfg.bdp), clock, h);
    case PacedSend(clock, permits) => ActivationTimed(cfg, st, st.src.(permits := permits), clock, h);
    case Feedback(m, clock, permits) => FeedbackTimed(cfg, st, m, clock, permits, h);
    case _ =>
  }

  /** What makes a step send packet `x` again: its negative acknowledgement, or that it is due. */
  ghost predicate SendsDue(cfg: Config, st: State, step: Step, x: nat)
    requires cfg.Valid() && Enabled(st, step)
  {
    match step
    case Start(clock, _) => Due(cfg, st.src, x, clock)
    case PacedSend(clock, _) => Due(cfg, st.src, x, clock)
    case Feedback(m, clock, _) => (m.Nack? && m.seqno == x) || Due(cfg, st.src, x, clock)
    case _ => false
  }

  lemma ActivationTimed(cfg: Config, st: State, s: Sender, clock: Clock, h: Times)
    requires cfg.Valid() && Inv(cfg, st) && Timed(cfg, st.src.sent, h)
    requires s == st.src.(permits := s.permits, cwnd := s.cwnd, maxCwnd := s.maxCwnd)
    ensures var s' := SendPackets(cfg, s, clock);
      && Timed(cfg, s'.sent, Recorded(h, s'.wire, clock))
      && forall x :: x in s'.wire && x <= st.src.highestSent ==> Due(cfg, st.src, x, clock)
  {
    hide SendPackets, SenderInv, HistoryInv, NetInv, Timed, Recorded, Due, Listed;
    IsListed(cfg, st.src, st.hist);
    SameList(st.src, s);
    SendPacketsTimed(cfg, s, clock, h);
    forall x | x in SendPackets(cfg, s, clock).wire && x <= st.src.highestSent ensures Due(cfg, st.src, x, clock) {
      SameDue(cfg, st.src, s, x, clock);
    }
  }

  lemma FeedbackTimed(cfg: Config, st: State, m: Msg, clock: Clock, permits: nat, h: Times)
    requires cfg.Valid() && Inv(cfg, st) && Timed(cfg, st.src.sent, h)
    requires m in st.net && (m.Ack? || m.Nack?) && ReceivePacket(cfg, st.src.(permits := permits), m, clock).Some?
    ensures var s' := ReceivePacket(cfg, st.src.(permits := permits), m, clock).value;
      && Timed(cfg, s'.sent, Recorded(h, s'.wire, clock))
      && forall x :: x in s'.wire && x <= st.src.highestSent ==> (m.Nack? && m.seqno == x) || Due(cfg, st.src, x, clock)
  {
    hide ProcessAck, ProcessNack, SenderInv, HistoryInv, NetInv, Timed, Recorded, Due, Listed;
    if m.Ack? {
      AckTimed(cfg, st, m, clock, permits, h);
    } else {
      var s := ReduceUnacked(st.src.(permits := permits), cfg.mss);
      IsListed(cfg, st.src, st.hist);
      SameList(st.src, s);
      NackTimed(cfg, s, m.seqno, clock, h);
    }
  }

  lemma {:induction false} ReachesTimed(cfg: Config, a: State, steps: seq<Step>, b: State, h: Times)
    requires cfg.Valid() && Inv(cfg, a) && Timed(cfg, a.src.sent, h) && Reaches(cfg, a, steps, b)
    ensures Timed(cfg, b.src.sent, TimesOf(cfg, a, steps, b, h))
    decreases |steps|
  {
    hide Inv, Next, Timed, TimesAfter;
    if steps == [] {
    } else {
      NextInv(cfg, a, steps[0]);
      StepTimed(cfg, a, steps[0], h);
      ReachesTimed(cfg, Next(cfg, a, steps[0]).value, steps[1..], b, TimesAfter(cfg, a, steps[0], h));
    }
  }

  lemma StartTimed(cfg: Config, startingCwnd: nat, steps: seq<Step>, st: State)
    requires cfg.Valid() && S.Run(cfg, startingCwnd, steps, st)
    ensures Inv(cfg, st) && Timed(cfg, st.src.sent, TimesOf(cfg, InitState(startingCwnd), steps, st, NoTimes()))
  {
    hide Inv, Reaches, TimesOf;
    InitInv(cfg, startingCwnd);
    ReachesInv(cfg, InitState(startingCwnd), steps, st);
    ReachesTimed(cfg, InitState(startingCwnd), steps, st, NoTimes());
  }

  /** In every run the timer of each listed packet is the retransmission timeout after the packet was last sent, and
      a packet is flagged as timed out only if some activation since came no earlier than the margin before that. */
  lemma TimersRunFromLastSend(cfg: Config, startingCwnd: nat, steps: seq<Step>, st: State)
    requires cfg.Valid() && S.Run(cfg, startingCwnd, steps, st)
    ensures var h := TimesOf(cfg, InitState(startingCwnd), steps, st, NoTimes());
      forall i :: 0 <= i < |st.src.sent| ==>
        var sp := st.src.sent[i];
        && sp.seqno in h.last && sp.timer == h.last[sp.seqno] + cfg.rto
        && (sp.timedOut ==> h.last[sp.seqno] + cfg.rto <= h.latest + cfg.rtoMargin)
  {
    hide Inv, Reaches, TimesOf;
    StartTimed(cfg, startingCwnd, steps, st);
    var h := TimesOf(cfg, InitState(startingCwnd), steps, st, NoTimes());
    assert forall i :: 0 <= i < |st.src.sent| ==> TimedOne(cfg, st.src.sent[i], h);
  }

  /** In every run a packet is sent again only on its negative acknowledgement, while flagged as negatively
      acknowledged, or when the timeout less the margin has passed since it was last sent. */
  lemma SentAgainOnlyWhenDue(cfg: Config, startingCwnd: nat, steps: seq<Step>, st: State, step: Step, x: nat)
    requires cfg.Valid() && S.Run(cfg, startingCwnd, steps, st) && Enabled(st, step) && Next(cfg, st, step).Some?
    requires x in O.TransmittedBy(cfg, st, step) && x <= st.src.highestSent
    ensures step.Start? || step.PacedSend? || step.Feedback?
    ensures var h := TimesOf(cfg, InitState(startingCwnd), steps, st, NoTimes());
      || (step.Feedback? && step.m == Nack(x, x + cfg.mss - 1))
      || (exists i :: 0 <= i < |st.src.sent| && st.src.sent[i].seqno == x && st.src.sent[i].nacked && !st.src.sent[i].acked)
      || (x in h.last && h.last[x] + cfg.rto <= Max(h.latest, step.clock.now) + cfg.rtoMargin)
  {
    hide Reaches, TimesOf, SenderInv, HistoryInv, Next, Timed;
    StartTimed(cfg, startingCwnd, steps, st);
    StepTimed(cfg, st, step, TimesOf(cfg, InitState(startingCwnd), steps, st, NoTimes()));
    var h := TimesOf(cfg, InitState(startingCwnd), steps, st, NoTimes());
    if step.Feedback? && step.m.Nack? && step.m.seqno == x {
      assert MsgOk(cfg, step.m, st.hist, st.src.highestSent);
    } else {
      DueHasRunOut(cfg, st.src, x, step.clock, h);
    }
  }

  lemma DueHasRunOut(cfg: Config, s: Sender, x: nat, clock: Clock, h: Times)
    requires Due(cfg, s, x, clock) && Timed(cfg, s.sent, h)
    ensures || (exists i :: 0 <= i < |s.sent| && s.sent[i].seqno == x && s.sent[i].nacked && !s.sent[i].acked)
            || (x in h.last && h.last[x] + cfg.rto <= Max(h.latest, clock.now) + cfg.rtoMargin)
  {
    var i :| 0 <= i < |s.sent| && s.sent[i].seqno == x && R.Needy(Flagged(cfg, s.rtxTimeoutPending, s.sent[i], clock));
    assert TimedOne(cfg, s.sent[i], h);
  }
}
