/** Without negative acknowledgements the BBR source sends every packet exactly once, whatever its timer does. */
module BbrOnce {
  import opened Basics
  import opened BbrTypes
  import opened BbrSender
  import opened BbrProtocol
  import opened BbrSafety
  import K = BbrSink

  /** `run` is the packets after byte `from` up to byte `to`, one after the other. */
  ghost predicate Fresh(mss: nat, from: nat, run: seq<nat>, to: nat)
    decreases |run|
  {
    if run == [] then from == to else run[0] == from + 1 && Fresh(mss, from + mss, run[1..], to)
  }

  lemma {:induction false} FreshChain(mss: nat, from: nat, a: seq<nat>, mid: nat, b: seq<nat>, to: nat)
    requires Fresh(mss, from, a, mid) && Fresh(mss, mid, b, to)
    ensures Fresh(mss, from, a + b, to)
    decreases |a|
  {
    if a == [] {
      assert a + b == b;
    } else {
      FreshChain(mss, from + mss, a[1..], mid, b, to);
      assert (a + b)[0] == a[0] && (a + b)[1..] == a[1..] + b;
    }
  }

  /** Such packets are distinct, increasing, and all there are in their range. */
  lemma {:induction false} FreshIncreasing(mss: nat, from: nat, run: seq<nat>, to: nat)
    requires mss > 0 && Aligned(mss, from) && Fresh(mss, from, run, to)
    ensures from <= to && Aligned(mss, to)
    ensures forall i, j :: 0 <= i < j < |run| ==> run[i] < run[j]
    ensures forall x :: x in run <==> x > from && WasSent(mss, to, x)
    decreases |run|
  {
    if run == [] {
    } else {
      var rest := run[1..];
      FreshIncreasing(mss, from + mss, rest, to);
      forall x ensures x in run <==> x > from && WasSent(mss, to, x) {
        assert x in run <==> x == run[0] || x in rest;
        if WasSent(mss, to, x) && from + 1 < x {
          SeqGap(mss, from + 1, x);
        }
      }
      forall j | 0 < j < |run| ensures run[0] < run[j] {
        assert run[j] == rest[j-1] && rest[j-1] in rest;
      }
      forall i, j | 0 <= i < j < |run| ensures run[i] < run[j] {
        assert i > 0 ==> run[i] == rest[i-1] && run[j] == rest[j-1];
      }
    }
  }

  // ---------------------------------------------------------------- what a step transmits

  /** The packets a step hands to the network, in order. */
  function TransmittedBy(cfg: Config, st: State, step: Step): seq<nat>
    requires cfg.Valid() && Enabled(st, step)
  {
    match step
    case Start(clock, permits) => StartFlow(cfg, st.src.(permits := permits), clock).wire
    case PacedSend(clock, permits) => SendPackets(cfg, st.src.(permits := permits), clock).wire
    case Feedback(m, clock, permits) =>
      (match ReceivePacket(cfg, st.src.(permits := permits), m, clock)
       case None => []
       case Some(src) => src.wire)
    case _ => []
  }

  function Transmitted(cfg: Config, a: State, steps: seq<Step>, b: State): seq<nat>
    requires cfg.Valid() && Reaches(cfg, a, steps, b)
    decreases |steps|
  {
    if steps == [] then []
    else TransmittedBy(cfg, a, steps[0]) + Transmitted(cfg, Next(cfg, a, steps[0]).value, steps[1..], b)
  }

  /** What is handed to the network is what joins the messages in flight. */
  lemma TransmittedJoins(cfg: Config, st: State, step: Step)
    requires cfg.Valid() && Enabled(st, step) && Next(cfg, st, step).Some?
    requires step.Start? || step.PacedSend? || step.Feedback?
    ensures Next(cfg, st, step).value.net ==
      st.net - (if step.Feedback? then multiset{step.m} else multiset{}) + WireMsgs(TransmittedBy(cfg, st, step))
  {
    hide StartFlow, SendPackets, ReceivePacket, WireMsgs;
  }

  ghost predicate NoNack(step: Step) { step.Feedback? ==> !step.m.Nack? }

  /** `s'` is `s` with fresh packets sent and no retransmission pending. */
  ghost predicate OnlyFresh(mss: nat, s: Sender, s': Sender) {
    && !s'.rtxPending
    && |s.wire| <= |s'.wire| && s'.wire[..|s.wire|] == s.wire
    && Fresh(mss, s.highestSent, s'.wire[|s.wire|..], s'.highestSent)
  }

  lemma {:induction false} SendLoopFresh(cfg: Config, s: Sender, clock: Clock)
    requires !s.rtxPending
    ensures OnlyFresh(cfg.mss, s, SendLoop(cfg, s, clock))
    decreases s.permits
  {
    hide CanSendNew, MinTimeout, Fresh;
    if CanSendNew(cfg, s) {
      SendNewFresh(cfg, s, clock);
      SendLoopFresh(cfg, SendNew(cfg, s, clock), clock);
      FreshThen(cfg.mss, s, SendNew(cfg, s, clock), SendLoop(cfg, s, clock));
    } else {
      FreshNone(cfg.mss, s);
    }
  }

  lemma FreshNone(mss: nat, s: Sender)
    requires !s.rtxPending
    ensures OnlyFresh(mss, s, s)
  {
  }

  lemma SendNewFresh(cfg: Config, s: Sender, clock: Clock)
    requires !s.rtxPending && CanSendNew(cfg, s)
    ensures OnlyFresh(cfg.mss, s, SendNew(cfg, s, clock))
  {
    hide CanSendNew, MinTimeout;
    var x := [s.highestSent + 1];
    assert (s.wire + x)[|s.wire|..] == x && (s.wire + x)[..|s.wire|] == s.wire;
    assert Fresh(cfg.mss, s.highestSent, x, s.highestSent + cfg.mss) by {
      assert x[1..] == [] && Fresh(cfg.mss, s.highestSent + cfg.mss, [], s.highestSent + cfg.mss);
    }
  }

  lemma FreshThen(mss: nat, s: Sender, s1: Sender, s2: Sender)
    requires OnlyFresh(mss, s, s1) && OnlyFresh(mss, s1, s2)
    ensures OnlyFresh(mss, s, s2)
  {
    hide Fresh;
    var n, n1 := |s.wire|, |s1.wire|;
    FreshChain(mss, s.highestSent, s1.wire[n..], s1.highestSent, s2.wire[n1..], s2.highestSent);
    assert s2.wire[..n] == s2.wire[..n1][..n];
    assert s2.wire[n..] == s2.wire[..n1][n..] + s2.wire[n1..];
  }

  /** Without a retransmission pending, sending is the loop for new packets. */
  lemma SendPacketsFresh(cfg: Config, s: Sender, clock: Clock)
    requires !s.rtxPending && s.wire == []
    ensures var s' := SendPackets(cfg, s, clock); !s'.rtxPending && Fresh(cfg.mss, s.highestSent, s'.wire, s'.highestSent)
  {
    hide SendLoop, Fresh;
    SendLoopFresh(cfg, s, clock);
    var s' := SendLoop(cfg, s, clock);
    assert s'.wire[0..] == s'.wire;
  }

  lemma AckFresh(cfg: Config, st: State, m: Msg, clock: Clock, permits: nat)
    requires cfg.Valid() && Inv(cfg, st) && !st.src.rtxPending && m in st.net && m.Ack?
    ensures var r := ReceivePacket(cfg, st.src.(permits := permits), m, clock);
      r.Some? && !r.value.rtxPending && Fresh(cfg.mss, st.src.highestSent, r.value.wire, r.value.highestSent)
  {
    hide MarkReceived, SendPackets, Fresh, MsgOk;
    var s := ReduceUnacked(st.src.(permits := permits), cfg.mss);
    assert MsgOk(cfg, m, st.hist, st.src.highestSent) && HistoryInv(cfg, st.sink, st.hist, st.src.highestSent);
    ReceiveCopiesInv(cfg, st, s);
    MarkReceivedInv(cfg, s, m, st.sink, st.hist);
    AckSent(cfg, m, st.sink, st.hist, st.src.highestSent);
    MarkKeepsQuiet(cfg, s, m.seqno, m.ackno);
    var s1 := MarkReceived(cfg, s, m.seqno, m.ackno).value;
    if !(m.ackno >= cfg.flowSize && s1.sent == [] && !s1.flowFinished) {
      SendPacketsFresh(cfg, s1.(lastAcked := m.ackno), clock);
      assert s1.(highestSent := if m.ackno >= s1.highestSent then m.ackno else s1.highestSent, lastAcked := m.ackno)
        == s1.(lastAcked := m.ackno);
    } else {
      assert Fresh(cfg.mss, st.src.highestSent, [], st.src.highestSent) by { FreshNothing(cfg.mss, st.src.highestSent); }
    }
  }

  lemma FreshNothing(mss: nat, at: nat)
    ensures Fresh(mss, at, [], at)
  {
  }

  lemma ReceiveCopiesInv(cfg: Config, st: State, s: Sender)
    requires cfg.Valid() && Inv(cfg, st) && s == st.src.(permits := s.permits, unacked := s.unacked)
    ensures SenderInv(cfg, s, st.hist) && s.wire == []
  {
    hide Window, HistoryInv, NetInv, CountNacked;
  }

  lemma MarkKeepsQuiet(cfg: Config, s: Sender, seqno: nat, ackno: nat)
    requires cfg.Valid() && MarkReceived(cfg, s, seqno, ackno).Some?
    ensures var s' := MarkReceived(cfg, s, seqno, ackno).value;
      s'.rtxPending == s.rtxPending && s'.wire == s.wire && s'.highestSent == s.highestSent
  {
    hide MinTimeout, DropAcked, DropHeads, IndexOf;
  }

  lemma StepFresh(cfg: Config, st: State, step: Step)
    requires cfg.Valid() && Inv(cfg, st) && !st.src.rtxPending
    requires Enabled(st, step) && Next(cfg, st, step).Some? && NoNack(step)
    ensures var st' := Next(cfg, st, step).value;
      !st'.src.rtxPending && Fresh(cfg.mss, st.src.highestSent, TransmittedBy(cfg, st, step), st'.src.highestSent)
  {
    hide SendPackets, ReceivePacket, Fresh, K.Receive, SenderInv, HistoryInv, NetInv, WireMsgs;
    FreshNothing(cfg.mss, st.src.highestSent);
    match step
    case Start(clock, permits) =>
      SendPacketsFresh(cfg, st.src.(permits := permits, maxCwnd := cfg.bdp, cwnd := cfg.bdp), clock);
    case PacedSend(clock, permits) => SendPacketsFresh(cfg, st.src.(permits := permits), clock);
    case Feedback(m, clock, permits) => AckFresh(cfg, st, m, clock, permits);
    case _ =>
  }

  lemma {:induction false} ReachesFresh(cfg: Config, a: State, steps: seq<Step>, b: State)
    requires cfg.Valid() && Inv(cfg, a) && !a.src.rtxPending && Reaches(cfg, a, steps, b)
    requires forall step :: step in steps ==> NoNack(step)
    ensures !b.src.rtxPending && Fresh(cfg.mss, a.src.highestSent, Transmitted(cfg, a, steps, b), b.src.highestSent)
    decreases |steps|
  {
    hide Next, Inv, TransmittedBy, Fresh, NoNack;
    if steps == [] {
      FreshNothing(cfg.mss, a.src.highestSent);
    } else {
      var a' := Next(cfg, a, steps[0]).value;
      assert steps[0] in steps;
      NextInv(cfg, a, steps[0]);
      StepFresh(cfg, a, steps[0]);
      ReachesFresh(cfg, a', steps[1..], b);
      FreshChain(cfg.mss, a.src.highestSent, TransmittedBy(cfg, a, steps[0]), a'.src.highestSent,
        Transmitted(cfg, a', steps[1..], b), b.src.highestSent);
    }
  }

  /** In every run in which no negative acknowledgement reaches the source, whatever is lost, reordered or duplicated and
      however often the timer fires, the source transmits each packet up to the highest one exactly once, in order: only a
      refused retransmission ever makes it retransmit, and a timeout alone is no reason to. */
  lemma NothingSentTwice(cfg: Config, startingCwnd: nat, steps: seq<Step>, st: State)
    requires cfg.Valid() && Run(cfg, startingCwnd, steps, st) && forall step :: step in steps ==> NoNack(step)
    ensures var sent := Transmitted(cfg, InitState(startingCwnd), steps, st);
      && (forall i, j :: 0 <= i < j < |sent| ==> sent[i] < sent[j])
      && (forall x :: x in sent <==> WasSent(cfg.mss, st.src.highestSent, x))
  {
    hide Inv, Fresh, Transmitted;
    InitInv(cfg, startingCwnd);
    ReachesFresh(cfg, InitState(startingCwnd), steps, st);
    FreshIncreasing(cfg.mss, 0, Transmitted(cfg, InitState(startingCwnd), steps, st), st.src.highestSent);
    SentIsPositive(cfg, st.src.highestSent);
  }

  lemma SentIsPositive(cfg: Config, highest: nat)
    requires cfg.Valid()
    ensures forall x :: WasSent(cfg.mss, highest, x) ==> x > 0
  {
  }

  // ---------------------------------------------------------------- a loss that nothing repairs

  /** Packet `x` was sent, did not reach the sink whole, and no copy of it is under way. */
  ghost predicate Lost(cfg: Config, st: State, x: nat)
    requires cfg.Valid()
  {
    WasSent(cfg.mss, st.src.highestSent, x) && x !in st.hist.got && Data(x) !in st.net && Header(x) !in st.net
  }

  lemma TransmitsOthers(cfg: Config, st: State, src: Sender, x: nat)
    requires cfg.Valid() && Fresh(cfg.mss, st.src.highestSent, src.wire, src.highestSent)
    requires Aligned(cfg.mss, st.src.highestSent) && WasSent(cfg.mss, st.src.highestSent, x)
    ensures Data(x) !in WireMsgs(src.wire) && Header(x) !in WireMsgs(src.wire)
    ensures WasSent(cfg.mss, src.highestSent, x)
  {
    hide Fresh;
    FreshIncreasing(cfg.mss, st.src.highestSent, src.wire, src.highestSent);
    WireMembers(src.wire);
  }

  lemma HighestAligned(cfg: Config, st: State)
    requires cfg.Valid() && Inv(cfg, st)
    ensures Aligned(cfg.mss, st.src.highestSent)
  {
    hide Aligned, Chain, HistoryInv, NetInv;
  }

  lemma StaysLostNext(cfg: Config, st: State, step: Step, x: nat)
    requires cfg.Valid() && Inv(cfg, st) && !st.src.rtxPending && Lost(cfg, st, x)
    requires Enabled(st, step) && Next(cfg, st, step).Some? && NoNack(step)
    ensures Lost(cfg, Next(cfg, st, step).value, x)
  {
    hide SendPackets, ReceivePacket, Fresh, SenderInv, HistoryInv, NetInv, WireMsgs, WasSent, Inv;
    HighestAligned(cfg, st);
    StepFresh(cfg, st, step);
    match step
    case Start(clock, permits) =>
      TransmitsOthers(cfg, st, StartFlow(cfg, st.src.(permits := permits), clock), x);
    case PacedSend(clock, permits) =>
      TransmitsOthers(cfg, st, SendPackets(cfg, st.src.(permits := permits), clock), x);
    case Feedback(m, clock, permits) =>
      TransmitsOthers(cfg, st, ReceivePacket(cfg, st.src.(permits := permits), m, clock).value, x);
    case Arrive(m) => K.RepliesWellFormed(cfg.mss, st.sink, m.seqno, m.Header?);
    case _ =>
  }

  lemma {:induction false} StaysLost(cfg: Config, a: State, steps: seq<Step>, b: State, x: nat)
    requires cfg.Valid() && Inv(cfg, a) && !a.src.rtxPending && Reaches(cfg, a, steps, b) && Lost(cfg, a, x)
    requires forall step :: step in steps ==> NoNack(step)
    ensures Inv(cfg, b) && Lost(cfg, b, x)
    decreases |steps|
  {
    hide Next, Inv, Lost, NoNack;
    if steps == [] {
    } else {
      assert steps[0] in steps;
      NextInv(cfg, a, steps[0]);
      StepFresh(cfg, a, steps[0]);
      StaysLostNext(cfg, a, steps[0], x);
      StaysLost(cfg, Next(cfg, a, steps[0]).value, steps[1..], b, x);
    }
  }

  /** So a packet lost without a trace is lost for good: as long as no negative acknowledgement of another packet reaches
      the source, no run ever brings it to the sink, and a flow that it belongs to never finishes. */
  lemma LossIsNotRepaired(cfg: Config, startingCwnd: nat, steps: seq<Step>, st: State, more: seq<Step>, st': State, x: nat)
    requires cfg.Valid() && Run(cfg, startingCwnd, steps, st) && Reaches(cfg, st, more, st')
    requires (forall step :: step in steps ==> NoNack(step)) && (forall step :: step in more ==> NoNack(step))
    requires Lost(cfg, st, x)
    ensures x !in st'.hist.got && !K.AlreadyReceived(st'.sink, x)
    ensures x <= cfg.flowSize ==> !st'.src.flowFinished
  {
    hide Inv, NoNack, Lost;
    InitInv(cfg, startingCwnd);
    ReachesInv(cfg, InitState(startingCwnd), steps, st);
    ReachesFresh(cfg, InitState(startingCwnd), steps, st);
    StaysLost(cfg, st, more, st', x);
    NotReceived(cfg, st', x);
  }

  lemma NotReceived(cfg: Config, st: State, x: nat)
    requires cfg.Valid() && Inv(cfg, st) && Lost(cfg, st, x)
    ensures x !in st.hist.got && !K.AlreadyReceived(st.sink, x)
    ensures x <= cfg.flowSize ==> !st.src.flowFinished
  {
    hide SenderInv, NetInv;
  }
}
