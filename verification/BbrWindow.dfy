/** What the congestion window and the pacer allow: how much is in flight, in one activation and over whole runs,
    and how a negative acknowledgement is answered. */
module BbrWindow {
  import opened Basics
  import opened BbrTypes
  import opened BbrSender
  import opened BbrProtocol
  import opened BbrRetransmit
  import S = BbrSafety

  // ---------------------------------------------------------------- bytes outstanding

  function Bytes(mss: nat, sp: SentPacket): nat { if sp.Outstanding() then mss else 0 }

  lemma {:induction false} OutstandingUpdate(mss: nat, sent: seq<SentPacket>, i: nat, sp: SentPacket)
    requires i < |sent|
    ensures OutstandingBytes(mss, sent[i := sp]) + Bytes(mss, sent[i]) == OutstandingBytes(mss, sent) + Bytes(mss, sp)
    decreases |sent|
  {
    var n := |sent| - 1;
    if i < n {
      OutstandingUpdate(mss, sent[..n], i, sp);
      assert sent[i := sp][..n] == sent[..n][i := sp];
    } else {
      assert sent[i := sp][..n] == sent[..n];
    }
  }

  lemma OutstandingAppend(mss: nat, sent: seq<SentPacket>, sp: SentPacket)
    ensures OutstandingBytes(mss, sent + [sp]) == OutstandingBytes(mss, sent) + Bytes(mss, sp)
  {
    assert (sent + [sp])[..|sent|] == sent;
  }

  lemma {:induction false} OutstandingTail(mss: nat, sent: seq<SentPacket>)
    requires sent != []
    ensures OutstandingBytes(mss, sent) == Bytes(mss, sent[0]) + OutstandingBytes(mss, sent[1..])
    decreases |sent|
  {
    var n := |sent| - 1;
    if n > 0 {
      OutstandingTail(mss, sent[..n]);
      assert sent[..n][1..] == sent[1..][..n-1];
    } else {
      assert sent[1..] == [] && sent[..n] == [];
    }
  }

  lemma {:induction false} OutstandingDropped(mss: nat, sent: seq<SentPacket>, ackno: nat)
    ensures OutstandingBytes(mss, DropAcked(sent, ackno)) <= OutstandingBytes(mss, sent)
    decreases |sent|
  {
    hide OutstandingBytes;
    if sent != [] && (sent[0].seqno <= ackno || sent[0].acked) {
      OutstandingTail(mss, sent);
      OutstandingDropped(mss, sent[1..], ackno);
    }
  }

  // ---------------------------------------------------------------- one activation

  /** The window is at most `most`, and what is outstanding exceeds it by less than a packet or was outstanding before. */
  predicate Within(cfg: Config, most: nat, before: nat, s: Sender) {
    s.cwnd <= most && (GetUnacked(cfg, s) < most + cfg.mss || GetUnacked(cfg, s) <= before)
  }

  /** The pacer's permits pay for what goes on the wire. */
  predicate Paid(s: Sender, s': Sender) {
    s'.permits <= s.permits && |s'.wire| + s'.permits == |s.wire| + s.permits
  }

  lemma TurnWithin(cfg: Config, most: nat, before: nat, s: Sender, i: nat, clock: Clock)
    requires cfg.Valid() && i < |s.sent| && cfg.mss <= most && Within(cfg, most, before, s)
    ensures Within(cfg, most, before, Turn(cfg, s, i, clock)) && Paid(s, Turn(cfg, s, i, clock))
  {
    hide OutstandingBytes, Turn, TurnSends;
    TurnEffect(cfg, s, i, clock);
    var sp := s.sent[i];
    var again := TurnSends(cfg, s, i, clock);
    var flagged := Flagged(cfg, s.rtxTimeoutPending, sp, clock);
    OutstandingUpdate(cfg.mss, s.sent, i, Entry(cfg, s.rtxTimeoutPending, sp, again, clock));
    OutstandingUpdate(cfg.mss, s.sent, i, flagged);
  }

  lemma {:induction false} RetransmitWithin(cfg: Config, most: nat, before: nat, s: Sender, i: nat, clock: Clock)
    requires cfg.Valid() && i <= |s.sent| && cfg.mss <= most && Within(cfg, most, before, s)
    ensures Within(cfg, most, before, RetransmitFrom(cfg, s, i, clock)) && Paid(s, RetransmitFrom(cfg, s, i, clock))
    decreases |s.sent| - i
  {
    hide TimeoutOne, RetransmitOne, Within;
    if i == |s.sent| {
      assert Within(cfg, most, before, s.(rtxTimeoutPending := false)) by { SameWindow(cfg, most, before, s, s.(rtxTimeoutPending := false)); }
    } else {
      TurnWithin(cfg, most, before, s, i, clock);
      RetransmitWithin(cfg, most, before, Turn(cfg, s, i, clock), i + 1, clock);
    }
  }

  lemma SameWindow(cfg: Config, most: nat, before: nat, s: Sender, s': Sender)
    requires Within(cfg, most, before, s) && s'.sent == s.sent && s'.cwnd == s.cwnd
    ensures Within(cfg, most, before, s')
  {
  }

  lemma SendNewWithin(cfg: Config, most: nat, before: nat, s: Sender, clock: Clock)
    requires cfg.Valid() && Within(cfg, most, before, s) && CanSendNew(cfg, s)
    ensures Within(cfg, most, before, SendNew(cfg, s, clock)) && Paid(s, SendNew(cfg, s, clock))
    ensures SendNew(cfg, s, clock).permits < s.permits
  {
    hide OutstandingBytes, MinTimeout;
    OutstandingAppend(cfg.mss, s.sent, SentPacket(clock.now + clock.service + cfg.rto, s.highestSent + 1, false, false, false));
  }

  lemma {:induction false} SendLoopWithin(cfg: Config, most: nat, before: nat, s: Sender, clock: Clock)
    requires cfg.Valid() && Within(cfg, most, before, s)
    ensures Within(cfg, most, before, SendLoop(cfg, s, clock)) && Paid(s, SendLoop(cfg, s, clock))
    ensures !CanSendNew(cfg, SendLoop(cfg, s, clock))
    decreases s.permits
  {
    hide CanSendNew, Within, SendNew;
    if CanSendNew(cfg, s) {
      SendNewWithin(cfg, most, before, s, clock);
      SendLoopWithin(cfg, most, before, SendNew(cfg, s, clock), clock);
    }
  }

  lemma SendPacketsWithin(cfg: Config, most: nat, before: nat, s: Sender, clock: Clock)
    requires cfg.Valid() && cfg.mss <= most && Within(cfg, most, before, s)
    ensures var s' := SendPackets(cfg, s, clock); Within(cfg, most, before, s') && Paid(s, s') && !CanSendNew(cfg, s')
  {
    hide RetransmitFrom, SendLoop, CanSendNew, Within;
    var s0 := s.(rtxPending := false);
    SameWindow(cfg, most, before, s, s0);
    RetransmitWithin(cfg, most, before, s0, 0, clock);
    SendLoopWithin(cfg, most, before, if s.rtxPending then RetransmitFrom(cfg, s0, 0, clock) else s, clock);
  }

  lemma {:induction false} NewWithinWindow(cfg: Config, s: Sender, clock: Clock)
    requires cfg.Valid()
    ensures var s' := SendLoop(cfg, s, clock); s' == s || (GetUnacked(cfg, s') <= s'.cwnd == s.cwnd)
    decreases s.permits
  {
    hide MinTimeout, OutstandingBytes;
    if CanSendNew(cfg, s) {
      OutstandingAppend(cfg.mss, s.sent, SentPacket(clock.now + clock.service + cfg.rto, s.highestSent + 1, false, false, false));
      NewWithinWindow(cfg, SendNew(cfg, s, clock), clock);
    }
  }

  lemma LoopSendsNothingNew(cfg: Config, s: Sender, clock: Clock)
    ensures RetransmitFrom(cfg, s, 0, clock).highestSent == s.highestSent
  {
    hide RetransmitFrom;
    var again := LoopRetransmits(cfg, s, 0, clock);
  }

  /** An activation exceeds the window by less than a packet, and not at all once it sends a new one; it pays a permit
      for every packet and stops sending new ones only without room, without permits or at the end of the flow. */
  lemma WindowRespected(cfg: Config, s: Sender, clock: Clock)
    requires cfg.Valid()
    ensures var s' := SendPackets(cfg, s, clock);
      && (GetUnacked(cfg, s') <= GetUnacked(cfg, s) || GetUnacked(cfg, s') < Max(s.cwnd, cfg.mss) + cfg.mss)
      && (s'.highestSent > s.highestSent ==> GetUnacked(cfg, s') <= s'.cwnd)
      && |s'.wire| + s'.permits == |s.wire| + s.permits
      && (GetUnacked(cfg, s') + cfg.mss > s'.cwnd || s'.highestSent >= cfg.flowSize || s'.permits == 0)
  {
    hide SendLoop, RetransmitFrom, OutstandingBytes;
    SendPacketsWithin(cfg, Max(s.cwnd, cfg.mss), GetUnacked(cfg, s), s, clock);
    LoopSendsNothingNew(cfg, s.(rtxPending := false), clock);
    NewWithinWindow(cfg, if s.rtxPending then RetransmitFrom(cfg, s.(rtxPending := false), 0, clock) else s, clock);
  }

  lemma {:induction false} SendLoopKeepsWindow(cfg: Config, s: Sender, clock: Clock)
    ensures SendLoop(cfg, s, clock).cwnd == s.cwnd
    decreases s.permits
  {
    hide MinTimeout, OutstandingBytes;
    if CanSendNew(cfg, s) {
      SendLoopKeepsWindow(cfg, SendNew(cfg, s, clock), clock);
    }
  }

  /** Starting the flow opens the window to the bandwidth-delay product and fills it, unless a packet times out at once,
      which shuts it to one packet. */
  lemma StartOpensWindow(cfg: Config, s: Sender, clock: Clock)
    requires cfg.Valid()
    ensures var s' := StartFlow(cfg, s, clock);
      && s'.maxCwnd == cfg.bdp && !CanSendNew(cfg, s')
      && s'.cwnd == if s.rtxPending && AnyExpired(cfg, s, 0, |s.sent|, clock) then cfg.mss else cfg.bdp
  {
    hide SendLoop, RetransmitFrom, AnyExpired, CanSendNew, OutstandingBytes, AgainIff, AnyRefused, Resent, Entry;
    var s0 := s.(maxCwnd := cfg.bdp, cwnd := cfg.bdp);
    SendPacketsWithin(cfg, Max(s0.cwnd, cfg.mss), GetUnacked(cfg, s0), s0, clock);
    SendKeepsMax(cfg, s0, clock);
    var s1 := s0.(rtxPending := false);
    var again := LoopRetransmits(cfg, s1, 0, clock);
    SameExpired(cfg, s, s1, clock);
    SendLoopKeepsWindow(cfg, if s.rtxPending then RetransmitFrom(cfg, s1, 0, clock) else s0, clock);
  }

  lemma SameExpired(cfg: Config, s: Sender, s': Sender, clock: Clock)
    requires s'.sent == s.sent && s'.rtxTimeoutPending == s.rtxTimeoutPending
    ensures AnyExpired(cfg, s, 0, |s.sent|, clock) <==> AnyExpired(cfg, s', 0, |s'.sent|, clock)
  {
  }

  // ---------------------------------------------------------------- negative acknowledgements

  function LimitedWindow(cfg: Config, s: Sender): nat {
    if s.maxCwnd <= cfg.mss || s.cwnd <= cfg.mss then cfg.mss else if s.cwnd <= s.maxCwnd then s.cwnd else s.maxCwnd
  }

  /** An accepted negative acknowledgement sends its packet again at once if the window, limited first, has room without
      it and the pacer lets it out, and otherwise leaves it flagged, with a retransmission pending; no other packet changes. */
  lemma NackAnswered(cfg: Config, s: Sender, seqno: nat, clock: Clock)
    requires ProcessNack(cfg, s, seqno, clock).Some?
    ensures IndexOf(s.sent, seqno) < |s.sent| && !s.sent[IndexOf(s.sent, seqno)].acked
    ensures var i, s' := IndexOf(s.sent, seqno), ProcessNack(cfg, s, seqno, clock).value;
      var flagged := s.sent[i := s.sent[i].(nacked := true)];
      && s'.cwnd == LimitedWindow(cfg, s) && s'.highestSent == s.highestSent
      && if OutstandingBytes(cfg.mss, flagged) < LimitedWindow(cfg, s) && s.permits > 0 then
           && s'.sent == s.sent[i := Renewed(cfg, s.sent[i], clock)] && s'.rtxPending == s.rtxPending
           && s'.wire == s.wire + [seqno] && s'.permits == s.permits - 1
         else s'.sent == flagged && s'.rtxPending && s'.wire == s.wire && s'.permits == s.permits
  {
    hide OutstandingBytes, MinTimeout;
    var i := IndexOf(s.sent, seqno);
    assert s.sent[i := s.sent[i]] == s.sent;
    assert LimitCwnd(cfg, s).cwnd == LimitedWindow(cfg, s);
    assert MarkNacked(LimitCwnd(cfg, s), i).sent == s.sent[i := s.sent[i].(nacked := true)];
  }

  // ---------------------------------------------------------------- over runs

  /** The largest window there can be. */
  function MostWindow(cfg: Config, startingCwnd: nat): nat { Max(cfg.mss, Max(cfg.bdp, startingCwnd)) }

  predicate Bounded(cfg: Config, most: nat, s: Sender) {
    Within(cfg, most, 0, s) && s.maxCwnd <= most
  }

  lemma SendPacketsBounded(cfg: Config, most: nat, s: Sender, clock: Clock)
    requires cfg.Valid() && cfg.mss <= most && Bounded(cfg, most, s)
    ensures Bounded(cfg, most, SendPackets(cfg, s, clock))
  {
    hide Within, SendPackets;
    SendPacketsWithin(cfg, most, 0, s, clock);
    SendKeepsMax(cfg, s, clock);
  }

  lemma {:induction false} RetransmitKeepsMax(cfg: Config, s: Sender, i: nat, clock: Clock)
    requires i <= |s.sent|
    ensures RetransmitFrom(cfg, s, i, clock).maxCwnd == s.maxCwnd
    decreases |s.sent| - i
  {
    hide MinTimeout, OutstandingBytes, TimesOut;
    if i < |s.sent| {
      RetransmitKeepsMax(cfg, RetransmitOne(cfg, TimeoutOne(cfg, s, i, clock), i, clock), i + 1, clock);
    }
  }

  lemma {:induction false} SendLoopKeepsMax(cfg: Config, s: Sender, clock: Clock)
    ensures SendLoop(cfg, s, clock).maxCwnd == s.maxCwnd
    decreases s.permits
  {
    hide MinTimeout, OutstandingBytes;
    if CanSendNew(cfg, s) {
      SendLoopKeepsMax(cfg, SendNew(cfg, s, clock), clock);
    }
  }

  lemma SendKeepsMax(cfg: Config, s: Sender, clock: Clock)
    ensures SendPackets(cfg, s, clock).maxCwnd == s.maxCwnd
  {
    hide RetransmitFrom, SendLoop;
    RetransmitKeepsMax(cfg, s.(rtxPending := false), 0, clock);
    SendLoopKeepsMax(cfg, if s.rtxPending then RetransmitFrom(cfg, s.(rtxPending := false), 0, clock) else s, clock);
  }

  lemma MarkReceivedBounded(cfg: Config, most: nat, s: Sender, seqno: nat, ackno: nat)
    requires cfg.Valid() && Bounded(cfg, most, s) && MarkReceived(cfg, s, seqno, ackno).Some?
    ensures Bounded(cfg, most, MarkReceived(cfg, s, seqno, ackno).value)
  {
    hide OutstandingBytes, MinTimeout, DropAcked, DropHeads, IndexOf;
    var i := IndexOf(s.sent, seqno);
    OutstandingDropped(cfg.mss, s.sent, ackno);
    if seqno != 1 && s.sent != [] && s.sent[0].seqno <= ackno && i < |s.sent| {
      if i == 0 {
        OutstandingTail(cfg.mss, s.sent);
        HeadsDropped(cfg.mss, s.sent[1..]);
      } else {
        OutstandingUpdate(cfg.mss, s.sent, i, SentPacket(s.sent[i].timer, s.sent[i].seqno, true, false, false));
      }
    }
  }

  lemma {:induction false} HeadsDropped(mss: nat, sent: seq<SentPacket>)
    ensures OutstandingBytes(mss, DropHeads(sent)) <= OutstandingBytes(mss, sent)
    decreases |sent|
  {
    hide OutstandingBytes;
    if sent != [] && sent[0].acked {
      OutstandingTail(mss, sent);
      HeadsDropped(mss, sent[1..]);
    }
  }

  lemma NackBounded(cfg: Config, most: nat, s: Sender, seqno: nat, clock: Clock)
    requires cfg.Valid() && cfg.mss <= most && Bounded(cfg, most, s) && ProcessNack(cfg, s, seqno, clock).Some?
    ensures Bounded(cfg, most, ProcessNack(cfg, s, seqno, clock).value)
  {
    hide OutstandingBytes, MinTimeout, IndexOf, ProcessNack;
    NackAnswered(cfg, s, seqno, clock);
    var i := IndexOf(s.sent, seqno);
    OutstandingUpdate(cfg.mss, s.sent, i, s.sent[i].(nacked := true));
    OutstandingUpdate(cfg.mss, s.sent, i, Renewed(cfg, s.sent[i], clock));
    NackKeepsMax(cfg, s, seqno, clock);
  }

  lemma NackKeepsMax(cfg: Config, s: Sender, seqno: nat, clock: Clock)
    requires ProcessNack(cfg, s, seqno, clock).Some?
    ensures ProcessNack(cfg, s, seqno, clock).value.maxCwnd == s.maxCwnd
  {
    hide OutstandingBytes, MinTimeout, IndexOf;
  }

  lemma FeedbackBounded(cfg: Config, most: nat, s: Sender, m: Msg, clock: Clock)
    requires cfg.Valid() && cfg.mss <= most && Bounded(cfg, most, s)
    requires (m.Ack? || m.Nack?) && ReceivePacket(cfg, s, m, clock).Some?
    ensures Bounded(cfg, most, ReceivePacket(cfg, s, m, clock).value)
  {
    hide OutstandingBytes, MarkReceived, ProcessNack, SendPackets;
    var s1 := ReduceUnacked(s, cfg.mss);
    if m.Ack? {
      MarkReceivedBounded(cfg, most, s1, m.seqno, m.ackno);
      var s2 := MarkReceived(cfg, s1, m.seqno, m.ackno).value;
      var s3 := s2.(highestSent := if m.ackno >= s2.highestSent then m.ackno else s2.highestSent, lastAcked := m.ackno);
      SendPacketsBounded(cfg, most, s3, clock);
    } else {
      NackBounded(cfg, most, s1, m.seqno, clock);
    }
  }

  lemma NextBounded(cfg: Config, most: nat, st: State, step: Step)
    requires cfg.Valid() && cfg.mss <= most && cfg.bdp <= most && Bounded(cfg, most, st.src)
    requires Enabled(st, step) && Next(cfg, st, step).Some?
    ensures Bounded(cfg, most, Next(cfg, st, step).value.src)
  {
    hide OutstandingBytes, SendPackets, ReceivePacket, WireMsgs;
    match step
    case Start(clock, permits) => SendPacketsBounded(cfg, most, st.src.(permits := permits, maxCwnd := cfg.bdp, cwnd := cfg.bdp), clock);
    case PacedSend(clock, permits) => SendPacketsBounded(cfg, most, st.src.(permits := permits), clock);
    case Feedback(m, clock, permits) => FeedbackBounded(cfg, most, st.src.(permits := permits), m, clock);
    case _ =>
  }

  lemma {:induction false} ReachesBounded(cfg: Config, most: nat, a: State, steps: seq<Step>, b: State)
    requires cfg.Valid() && cfg.mss <= most && cfg.bdp <= most && Bounded(cfg, most, a.src) && Reaches(cfg, a, steps, b)
    ensures Bounded(cfg, most, b.src)
    decreases |steps|
  {
    hide Next, Bounded;
    if steps == [] {
    } else {
      NextBounded(cfg, most, a, steps[0]);
      ReachesBounded(cfg, most, Next(cfg, a, steps[0]).value, steps[1..], b);
    }
  }

  /** In every run the window never exceeds the largest of a packet, the bandwidth-delay product and its start value,
      and the bytes outstanding never exceed that by a packet. */
  lemma FlightIsBounded(cfg: Config, startingCwnd: nat, steps: seq<Step>, st: State)
    requires cfg.Valid() && S.Run(cfg, startingCwnd, steps, st)
    ensures var most := Max(cfg.mss, Max(cfg.bdp, startingCwnd));
      st.src.cwnd <= most && GetUnacked(cfg, st.src) < most + cfg.mss
  {
    hide Reaches;
    ReachesBounded(cfg, MostWindow(cfg, startingCwnd), InitState(startingCwnd), steps, st);
  }
}
