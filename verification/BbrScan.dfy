/** The scan of the retransmission timer never misses a packet whose timer is due, as long as packets depart in order. */
module BbrScan {
  import opened Basics
  import opened BbrTypes
  import opened BbrSender
  import opened BbrProtocol
  import opened BbrRetransmit
  import R = BbrRepair
  import S = BbrSafety

  ghost predicate TimersWithin(sent: seq<SentPacket>, bound: nat) {
    forall i :: 0 <= i < |sent| ==> 0 < sent[i].timer <= bound
  }

  ghost predicate AtMostOutstanding(sent: seq<SentPacket>, t: nat) {
    forall i :: 0 <= i < |sent| && sent[i].Outstanding() ==> t <= sent[i].timer
  }

  ghost predicate SomeOutstanding(sent: seq<SentPacket>) {
    exists i :: 0 <= i < |sent| && sent[i].Outstanding()
  }

  /** The watched timer is that of some packet not acknowledged, or none is. */
  ghost predicate Watched(s: Sender) {
    s.rtxTimeout == TIME_INF || exists i :: 0 <= i < |s.sent| && !s.sent[i].acked && s.sent[i].timer == s.rtxTimeout
  }

  /** The timers run from departures up to `dep`, and the one that is watched is that of an unacknowledged packet
      and no later than any outstanding one. */
  ghost predicate Tracks(cfg: Config, s: Sender, dep: nat) {
    && TimersWithin(s.sent, dep + cfg.rto) && s.rtxTimeout <= dep + cfg.rto && Watched(s)
    && (s.rtxTimeout != TIME_INF ==> AtMostOutstanding(s.sent, s.rtxTimeout))
    && (s.rtxTimeout == TIME_INF ==> !SomeOutstanding(s.sent))
  }

  /** The watched timer, recomputed, is the earliest outstanding one. */
  lemma {:induction false} MinTimeoutIsLeast(sent: seq<SentPacket>, least: nat)
    requires forall i :: 0 <= i < |sent| ==> sent[i].timer > 0
    ensures var t := MinTimeout(sent, least);
      && (t == TIME_INF <==> least == TIME_INF && !SomeOutstanding(sent))
      && (t != TIME_INF ==> AtMostOutstanding(sent, t) && (least == TIME_INF || t <= least))
      && (t == least || exists i :: 0 <= i < |sent| && sent[i].Outstanding() && sent[i].timer == t)
    decreases |sent|
  {
    if sent == [] {
    } else {
      var sp := sent[0];
      var next := if sp.Outstanding() && (sp.timer < least || least == TIME_INF) then sp.timer else least;
      MinTimeoutIsLeast(sent[1..], next);
      LeastOfRest(sent, least, next, MinTimeout(sent[1..], next));
    }
  }

  lemma LeastOfRest(sent: seq<SentPacket>, least: nat, next: nat, t: nat)
    requires sent != [] && sent[0].timer > 0
    requires next == if sent[0].Outstanding() && (sent[0].timer < least || least == TIME_INF) then sent[0].timer else least
    requires t == TIME_INF <==> next == TIME_INF && !SomeOutstanding(sent[1..])
    requires t != TIME_INF ==> AtMostOutstanding(sent[1..], t) && (next == TIME_INF || t <= next)
    requires t == next || exists i :: 0 <= i < |sent[1..]| && sent[1..][i].Outstanding() && sent[1..][i].timer == t
    ensures t == TIME_INF <==> least == TIME_INF && !SomeOutstanding(sent)
    ensures t != TIME_INF ==> AtMostOutstanding(sent, t) && (least == TIME_INF || t <= least)
    ensures t == least || exists i :: 0 <= i < |sent| && sent[i].Outstanding() && sent[i].timer == t
  {
    var rest := sent[1..];
    assert forall i :: 0 <= i < |rest| ==> rest[i] == sent[i+1];
    assert forall i :: 0 < i < |sent| ==> sent[i] == rest[i-1];
    if t != next {
      var i :| 0 <= i < |rest| && rest[i].Outstanding() && rest[i].timer == t;
      assert sent[i+1].Outstanding() && sent[i+1].timer == t;
    }
  }

  lemma UpdateTracks(cfg: Config, s: Sender, dep: nat)
    requires TimersWithin(s.sent, dep + cfg.rto)
    ensures Tracks(cfg, UpdateRtxTime(s), dep)
  {
    hide MinTimeout;
    MinTimeoutIsLeast(s.sent, TIME_INF);
  }

  /** Fewer outstanding packets with the same timers are still tracked. */
  lemma FewerTracked(cfg: Config, s: Sender, s': Sender, dep: nat)
    requires Tracks(cfg, s, dep) && s'.rtxTimeout == s.rtxTimeout && |s'.sent| == |s.sent|
    requires forall i :: 0 <= i < |s.sent| ==>
      && s'.sent[i].timer == s.sent[i].timer && s'.sent[i].acked == s.sent[i].acked
      && (s'.sent[i].Outstanding() ==> s.sent[i].Outstanding())
    ensures Tracks(cfg, s', dep)
  {
  }

  lemma ResendTracks(cfg: Config, s: Sender, i: nat, clock: Clock)
    requires cfg.rto > 0 && Tracks(cfg, s, clock.now + clock.service) && i < |s.sent| && !s.sent[i].acked
    ensures Tracks(cfg, ResendPacket(cfg, s, i, clock), clock.now + clock.service)
  {
    hide MinTimeout, OutstandingBytes, SomeOutstanding, AtMostOutstanding, Watched;
    if CanResend(cfg, s) {
      var sp := Renewed(cfg, s.sent[i], clock);
      UpdateTracks(cfg, s.(unacked := s.unacked + cfg.mss, sent := s.sent[i := sp],
        nackRtxPending := if s.sent[i].nacked then s.nackRtxPending - 1 else s.nackRtxPending,
        permits := s.permits - 1, wire := s.wire + [sp.seqno]), clock.now + clock.service);
    }
  }

  lemma TimeoutTracks(cfg: Config, s: Sender, i: nat, clock: Clock, dep: nat)
    requires i < |s.sent| && Tracks(cfg, s, dep)
    ensures Tracks(cfg, TimeoutOne(cfg, s, i, clock), dep)
  {
    hide TimesOut, Tracks;
    FewerTracked(cfg, s, TimeoutOne(cfg, s, i, clock), dep);
  }

  lemma TurnTracks(cfg: Config, s: Sender, i: nat, clock: Clock)
    requires cfg.rto > 0 && i < |s.sent| && Tracks(cfg, s, clock.now + clock.service)
    ensures Tracks(cfg, Turn(cfg, s, i, clock), clock.now + clock.service)
  {
    hide ResendPacket, CanResend, Tracks, TimeoutOne;
    TimeoutTracks(cfg, s, i, clock, clock.now + clock.service);
    var s1 := TimeoutOne(cfg, s, i, clock);
    FewerTracked(cfg, s1, s1.(rtxPending := true), clock.now + clock.service);
    if !s1.sent[i].acked {
      ResendTracks(cfg, s1, i, clock);
      ResendTracks(cfg, s1.(rtxPending := true), i, clock);
    }
  }

  lemma {:induction false} RetransmitTracks(cfg: Config, s: Sender, i: nat, clock: Clock)
    requires cfg.rto > 0 && i <= |s.sent| && Tracks(cfg, s, clock.now + clock.service)
    ensures Tracks(cfg, RetransmitFrom(cfg, s, i, clock), clock.now + clock.service)
    decreases |s.sent| - i
  {
    hide TimeoutOne, RetransmitOne, Tracks;
    if i == |s.sent| {
      FewerTracked(cfg, s, s.(rtxTimeoutPending := false), clock.now + clock.service);
    } else {
      TurnTracks(cfg, s, i, clock);
      RetransmitTracks(cfg, Turn(cfg, s, i, clock), i + 1, clock);
    }
  }

  lemma SendNewTracks(cfg: Config, s: Sender, clock: Clock)
    requires cfg.rto > 0 && Tracks(cfg, s, clock.now + clock.service) && CanSendNew(cfg, s)
    ensures Tracks(cfg, SendNew(cfg, s, clock), clock.now + clock.service)
  {
    hide MinTimeout, OutstandingBytes;
    var s' := s.(
      highestSent := s.highestSent + cfg.mss, unacked := s.unacked + cfg.mss,
      sent := s.sent + [SentPacket(clock.now + clock.service + cfg.rto, s.highestSent + 1, false, false, false)],
      permits := s.permits - 1, wire := s.wire + [s.highestSent + 1]);
    if s.rtxTimeout == TIME_INF {
      UpdateTracks(cfg, s', clock.now + clock.service);
    } else {
      var i :| 0 <= i < |s.sent| && !s.sent[i].acked && s.sent[i].timer == s.rtxTimeout;
      assert s'.sent[i] == s.sent[i];
    }
  }

  lemma {:induction false} SendLoopTracks(cfg: Config, s: Sender, clock: Clock)
    requires cfg.rto > 0 && Tracks(cfg, s, clock.now + clock.service)
    ensures Tracks(cfg, SendLoop(cfg, s, clock), clock.now + clock.service)
    decreases s.permits
  {
    hide Tracks;
    if CanSendNew(cfg, s) {
      SendNewTracks(cfg, s, clock);
      SendLoopTracks(cfg, SendNew(cfg, s, clock), clock);
    }
  }

  lemma SendPacketsTracks(cfg: Config, s: Sender, clock: Clock)
    requires cfg.rto > 0 && Tracks(cfg, s, clock.now + clock.service)
    ensures Tracks(cfg, SendPackets(cfg, s, clock), clock.now + clock.service)
  {
    hide RetransmitFrom, SendLoop, Tracks;
    var s0 := s.(rtxPending := false);
    FewerTracked(cfg, s, s0, clock.now + clock.service);
    RetransmitTracks(cfg, s0, 0, clock);
    SendLoopTracks(cfg, if s.rtxPending then RetransmitFrom(cfg, s0, 0, clock) else s, clock);
  }

  lemma MarkReceivedTracks(cfg: Config, s: Sender, seqno: nat, ackno: nat, dep: nat)
    requires cfg.Valid() && Tracks(cfg, s, dep) && MarkReceived(cfg, s, seqno, ackno).Some?
    ensures Tracks(cfg, MarkReceived(cfg, s, seqno, ackno).value, dep)
  {
    hide MinTimeout, DropAcked, DropHeads, SomeOutstanding, AtMostOutstanding, Watched;
    R.DropsTail(s.sent, ackno);
    if seqno == 1 {
      UpdateTracks(cfg, s.(sent := DropAcked(s.sent, ackno)), dep);
    } else if s.sent != [] && s.sent[0].seqno <= ackno {
      var i := IndexOf(s.sent, seqno);
      if i == 0 {
        R.DropsTail(s.sent[1..], ackno);
        UpdateTracks(cfg, s.(sent := DropHeads(s.sent[1..])), dep);
      } else {
        var sp := s.sent[i];
        UpdateTracks(cfg, s.(sent := s.sent[i := SentPacket(sp.timer, sp.seqno, true, false, false)],
          nackRtxPending := if sp.nacked then s.nackRtxPending - 1 else s.nackRtxPending,
          lastAcked := sp.seqno + cfg.mss - 1), dep);
      }
    }
  }

  lemma FeedbackTracks(cfg: Config, s: Sender, m: Msg, clock: Clock)
    requires cfg.Valid() && cfg.rto > 0 && Tracks(cfg, s, clock.now + clock.service)
    requires (m.Ack? || m.Nack?) && ReceivePacket(cfg, s, m, clock).Some?
    ensures Tracks(cfg, ReceivePacket(cfg, s, m, clock).value, clock.now + clock.service)
  {
    hide MarkReceived, SendPackets, ResendPacket, CanResend, IndexOf, Tracks;
    var s1, dep := ReduceUnacked(s, cfg.mss), clock.now + clock.service;
    FewerTracked(cfg, s, s1, dep);
    if m.Ack? {
      MarkReceivedTracks(cfg, s1, m.seqno, m.ackno, dep);
      var s2 := MarkReceived(cfg, s1, m.seqno, m.ackno).value;
      var s3 := s2.(highestSent := if m.ackno >= s2.highestSent then m.ackno else s2.highestSent, lastAcked := m.ackno);
      FewerTracked(cfg, s2, s3, dep);
      FewerTracked(cfg, s2, s2.(flowFinished := true), dep);
      SendPacketsTracks(cfg, s3, clock);
    } else {
      var s2 := LimitCwnd(cfg, s1);
      var i := IndexOf(s2.sent, m.seqno);
      FewerTracked(cfg, s1, MarkNacked(s2, i), dep);
      ResendTracks(cfg, MarkNacked(s2, i), i, clock);
      var s3 := ResendPacket(cfg, MarkNacked(s2, i), i, clock);
      FewerTracked(cfg, s3, s3.(rtxPending := true), dep);
    }
  }

  // ---------------------------------------------------------------- over runs

  /** The time a packet handed to the network in this step departs. */
  function Departure(step: Step, dep: nat): nat {
    match step
    case Start(clock, _) => clock.now + clock.service
    case PacedSend(clock, _) => clock.now + clock.service
    case Feedback(_, clock, _) => clock.now + clock.service
    case _ => dep
  }

  /** Packets depart in the order in which they are handed over, as they do from a first-in first-out host queue. */
  predicate DepartInOrder(steps: seq<Step>, dep: nat)
    decreases |steps|
  {
    steps == [] || (dep <= Departure(steps[0], dep) && DepartInOrder(steps[1..], Departure(steps[0], dep)))
  }

  lemma LaterTracks(cfg: Config, s: Sender, dep: nat, dep': nat)
    requires Tracks(cfg, s, dep) && dep <= dep'
    ensures Tracks(cfg, s, dep')
  {
    hide SomeOutstanding, AtMostOutstanding, Watched;
  }

  lemma NextTracks(cfg: Config, st: State, step: Step, dep: nat)
    requires cfg.Valid() && cfg.rto > 0 && Tracks(cfg, st.src, dep) && dep <= Departure(step, dep)
    requires Enabled(st, step) && Next(cfg, st, step).Some?
    ensures Tracks(cfg, Next(cfg, st, step).value.src, Departure(step, dep))
  {
    hide SendPackets, ReceivePacket, WireMsgs, Tracks;
    LaterTracks(cfg, st.src, dep, Departure(step, dep));
    match step
    case Start(clock, permits) =>
      ActivationTracks(cfg, st.src, st.src.(permits := permits, maxCwnd := cfg.bdp, cwnd := cfg.bdp), clock);
      Transmitted(cfg, StartFlow(cfg, st.src.(permits := permits), clock), clock.now + clock.service);
    case PacedSend(clock, permits) =>
      ActivationTracks(cfg, st.src, st.src.(permits := permits), clock);
      Transmitted(cfg, SendPackets(cfg, st.src.(permits := permits), clock), clock.now + clock.service);
    case Feedback(m, clock, permits) =>
      FewerTracked(cfg, st.src, st.src.(permits := permits), clock.now + clock.service);
      FeedbackTracks(cfg, st.src.(permits := permits), m, clock);
      Transmitted(cfg, ReceivePacket(cfg, st.src.(permits := permits), m, clock).value, clock.now + clock.service);
    case TimerScan(now, period) => FewerTracked(cfg, st.src, RtxTimerHook(cfg, st.src, now, period), dep);
    case _ =>
  }

  lemma ActivationTracks(cfg: Config, s: Sender, s': Sender, clock: Clock)
    requires cfg.rto > 0 && Tracks(cfg, s, clock.now + clock.service)
    requires s'.sent == s.sent && s'.rtxTimeout == s.rtxTimeout
    ensures Tracks(cfg, SendPackets(cfg, s', clock), clock.now + clock.service)
  {
    hide SendPackets, Tracks;
    FewerTracked(cfg, s, s', clock.now + clock.service);
    SendPacketsTracks(cfg, s', clock);
  }

  lemma Transmitted(cfg: Config, s: Sender, dep: nat)
    requires Tracks(cfg, s, dep)
    ensures Tracks(cfg, s.(wire := [], permits := 0), dep)
  {
  }

  lemma {:induction false} ReachesTracks(cfg: Config, a: State, steps: seq<Step>, b: State, dep: nat) returns (dep': nat)
    requires cfg.Valid() && cfg.rto > 0 && Tracks(cfg, a.src, dep) && Reaches(cfg, a, steps, b) && DepartInOrder(steps, dep)
    ensures Tracks(cfg, b.src, dep')
    decreases |steps|
  {
    hide Next, Tracks, Departure;
    if steps == [] {
      dep' := dep;
    } else {
      NextTracks(cfg, a, steps[0], dep);
      dep' := ReachesTracks(cfg, Next(cfg, a, steps[0]).value, steps[1..], b, Departure(steps[0], dep));
    }
  }

  /** In a run in which packets depart in order, a scan finds a timeout whenever the timer of an outstanding packet
      is due within the scanning period, shuts the window and restarts the source by the time that timer runs out. */
  lemma ScanNeverMisses(cfg: Config, startingCwnd: nat, steps: seq<Step>, st: State, i: nat, now: nat, period: nat)
    requires cfg.Valid() && cfg.rto > 0 && S.Run(cfg, startingCwnd, steps, st) && DepartInOrder(steps, 0)
    requires i < |st.src.sent| && st.src.sent[i].Outstanding() && st.src.sent[i].timer <= now + period
    ensures RtxTimerHook(cfg, st.src, now, period).rtxTimeoutPending
    ensures !st.src.rtxTimeoutPending ==>
      && RtxTimerHook(cfg, st.src, now, period).cwnd == cfg.mss
      && RestartsAfter(st.src, now, period).Some?
      && now + RestartsAfter(st.src, now, period).value <= Max(now, st.src.sent[i].timer)
  {
    hide Reaches, Inv;
    var dep := ReachesTracks(cfg, InitState(startingCwnd), steps, st, 0);
    SomethingSent(cfg, startingCwnd, steps, st);
  }

  /** Nor does it find one for nothing: some packet not acknowledged has a timer that is due within the period. */
  lemma ScanFindsOnlyDue(cfg: Config, startingCwnd: nat, steps: seq<Step>, st: State, now: nat, period: nat)
    requires cfg.Valid() && cfg.rto > 0 && S.Run(cfg, startingCwnd, steps, st) && DepartInOrder(steps, 0)
    requires RtxTimerHook(cfg, st.src, now, period) != st.src
    ensures exists i :: 0 <= i < |st.src.sent| && !st.src.sent[i].acked && st.src.sent[i].timer <= now + period
  {
    hide Reaches;
    var dep := ReachesTracks(cfg, InitState(startingCwnd), steps, st, 0);
    var i :| 0 <= i < |st.src.sent| && !st.src.sent[i].acked && st.src.sent[i].timer == st.src.rtxTimeout;
  }

  lemma SomethingSent(cfg: Config, startingCwnd: nat, steps: seq<Step>, st: State)
    requires cfg.Valid() && S.Run(cfg, startingCwnd, steps, st) && st.src.sent != []
    ensures st.src.highestSent > 0
  {
    hide Reaches;
    S.RunInv(cfg, startingCwnd, steps, st);
  }
}
