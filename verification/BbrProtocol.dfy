/** Source, network and sink together. The network may lose, reorder, duplicate and trim, and the
    retransmission timer may fire at any time. Invariants of every run, with their proofs. */
module BbrProtocol {
  import opened Basics
  import opened BbrTypes
  import opened BbrSender
  import K = BbrSink

  /** What happened so far; no component reads it.
      `got`: packets the sink received whole. `cums`: cumulative acknowledgements ever created (and 0).
      `ooos`: packets ever acknowledged out of order by the sink; `oooDone`: those whose out-of-order
      acknowledgement the source has processed. `maxCum`: largest cumulative one it has processed. */
  datatype History = History(got: set<nat>, cums: set<nat>, ooos: set<nat>, oooDone: set<nat>, maxCum: nat)

  datatype State = State(src: Sender, sink: K.Sink, net: multiset<Msg>, hist: History)

  datatype Step =
    | Start(clock: Clock, permits: nat)
    | PacedSend(clock: Clock, permits: nat)
    | TimerScan(now: nat, period: nat)
    | Feedback(m: Msg, clock: Clock, permits: nat)
    | Arrive(m: Msg)
    | Lose(m: Msg)
    | Duplicate(m: Msg)
    | Trim(seqno: nat)

  function WireMsgs(wire: seq<nat>): multiset<Msg> {
    if wire == [] then multiset{}
    else WireMsgs(wire[..|wire|-1]) + multiset{Data(wire[|wire|-1])}
  }

  function InitState(startingCwnd: nat): State {
    State(InitSender(startingCwnd), K.EmptySink, multiset{}, History({}, {0}, {}, {}, 0))
  }

  predicate Enabled(st: State, step: Step) {
    match step
    case Start(_, _) => true
    case PacedSend(_, _) => true
    case TimerScan(_, _) => true
    case Feedback(m, _, _) => m in st.net && (m.Ack? || m.Nack?)
    case Arrive(m) => m in st.net && (m.Data? || m.Header?)
    case Lose(m) => m in st.net
    case Duplicate(m) => m in st.net
    case Trim(seqno) => Data(seqno) in st.net
  }

  /** Hands the packets of an activation of the source to the network. */
  function Transmit(st: State, src: Sender): State {
    st.(src := src.(wire := [], permits := 0), net := st.net + WireMsgs(src.wire))
  }

  function Acknowledged(h: History, m: Msg): History {
    if !m.Ack? then h
    else if m.seqno == 1 then h.(maxCum := if m.ackno > h.maxCum then m.ackno else h.maxCum)
    else h.(oooDone := h.oooDone + {m.seqno})
  }

  function Arrived(h: History, m: Msg, reply: Msg): History
    requires m.Data? || m.Header?
  {
    var h1 := if m.Data? then h.(got := h.got + {m.seqno}) else h;
    if !reply.Ack? then h1
    else if reply.seqno == 1 then h1.(cums := h1.cums + {reply.ackno})
    else h1.(ooos := h1.ooos + {reply.seqno})
  }

  /** `None`: an assertion of the source fails and the run halts. */
  function Next(cfg: Config, st: State, step: Step): Option<State>
    requires cfg.Valid() && Enabled(st, step)
  {
    match step
    case Start(clock, permits) =>
      Some(Transmit(st, StartFlow(cfg, st.src.(permits := permits), clock)))
    case PacedSend(clock, permits) =>
      Some(Transmit(st, SendPackets(cfg, st.src.(permits := permits), clock)))
    case TimerScan(now, period) =>
      Some(st.(src := RtxTimerHook(cfg, st.src, now, period)))
    case Feedback(m, clock, permits) =>
      (match ReceivePacket(cfg, st.src.(permits := permits), m, clock)
       case None => None
       case Some(src) =>
         Some(Transmit(st.(net := st.net - multiset{m}, hist := Acknowledged(st.hist, m)), src)))
    case Arrive(m) =>
      var (sink, reply) := K.Receive(cfg.mss, st.sink, m.seqno, m.Header?);
      Some(st.(sink := sink, net := st.net - multiset{m} + multiset{reply}, hist := Arrived(st.hist, m, reply)))
    case Lose(m) => Some(st.(net := st.net - multiset{m}))
    case Duplicate(m) => Some(st.(net := st.net + multiset{m}))
    case Trim(seqno) => Some(st.(net := st.net - multiset{Data(seqno)} + multiset{Header(seqno)}))
  }

  /** `steps` is a run from `a` to `b`. */
  ghost predicate Reaches(cfg: Config, a: State, steps: seq<Step>, b: State)
    requires cfg.Valid()
    decreases |steps|
  {
    if steps == [] then a == b
    else
      && Enabled(a, steps[0])
      && Next(cfg, a, steps[0]).Some?
      && Reaches(cfg, Next(cfg, a, steps[0]).value, steps[1..], b)
  }

  // ---------------------------------------------------------------- invariants

  /** `sent` is a gapless run of packets. */
  ghost predicate Chain(mss: nat, sent: seq<SentPacket>)
    requires mss > 0
  {
    && (forall i :: 0 <= i < |sent| ==> IsSeq(mss, sent[i].seqno))
    && (forall i, j :: 0 <= i && j == i + 1 && j < |sent| ==> sent[j].seqno == sent[i].seqno + mss)
    && (forall i, j :: 0 <= i < j < |sent| ==> sent[i].seqno + mss <= sent[j].seqno)
  }

  /** `sent` holds exactly the packets after byte `base` up to byte `highest`. */
  ghost predicate Window(mss: nat, sent: seq<SentPacket>, base: nat, highest: nat)
    requires mss > 0
  {
    && Chain(mss, sent)
    && Aligned(mss, base) && Aligned(mss, highest)
    && if sent == [] then base == highest
       else sent[0].seqno == base + 1 && sent[|sent|-1].seqno + mss == highest + 1
  }

  ghost predicate WasSent(mss: nat, highest: nat, seqno: int)
    requires mss > 0
  {
    IsSeq(mss, seqno) && seqno + mss <= highest + 1
  }

  ghost predicate SenderInv(cfg: Config, s: Sender, h: History)
    requires cfg.Valid()
  {
    && Window(cfg.mss, s.sent, h.maxCum, s.highestSent)
    && (forall i :: 0 <= i < |s.sent| ==> (s.sent[i].acked <==> s.sent[i].seqno in h.oooDone))
    && CountNacked(s.sent) <= s.nackRtxPending
    && (forall x :: x in s.wire ==> WasSent(cfg.mss, s.highestSent, x))
  }

  ghost predicate HistoryInv(cfg: Config, sink: K.Sink, h: History, highest: nat)
    requires cfg.Valid()
  {
    && K.Reassembles(cfg.mss, sink, h.got)
    && (forall x :: x in h.got ==> WasSent(cfg.mss, highest, x))
    && 0 in h.cums && h.maxCum in h.cums
    && (forall c :: c in h.cums ==> Aligned(cfg.mss, c) && c <= sink.cumulativeAck)
    && h.oooDone <= h.ooos <= h.got
    && (forall c, o :: c in h.cums && o in h.ooos ==> c + 1 != o)
  }

  ghost predicate MsgOk(cfg: Config, m: Msg, h: History, highest: nat)
    requires cfg.Valid()
  {
    match m
    case Data(x) => WasSent(cfg.mss, highest, x)
    case Header(x) => WasSent(cfg.mss, highest, x)
    case Nack(x, a) => WasSent(cfg.mss, highest, x) && a == x + cfg.mss - 1
    case Ack(x, a, orig) =>
      if x == 1 then a in h.cums && WasSent(cfg.mss, highest, orig)
      else x in h.ooos && a == x + cfg.mss - 1 && orig == x
  }

  ghost predicate NetInv(cfg: Config, net: multiset<Msg>, h: History, highest: nat)
    requires cfg.Valid()
  {
    forall m :: m in net ==> MsgOk(cfg, m, h, highest)
  }

  ghost predicate Inv(cfg: Config, st: State)
    requires cfg.Valid()
  {
    && SenderInv(cfg, st.src, st.hist)
    && st.src.wire == []
    && HistoryInv(cfg, st.sink, st.hist, st.src.highestSent)
    && NetInv(cfg, st.net, st.hist, st.src.highestSent)
    && (st.src.flowFinished ==> st.sink.cumulativeAck >= cfg.flowSize)
  }

  // ---------------------------------------------------------------- counting

  lemma {:induction false} CountNackedUpdate(sent: seq<SentPacket>, i: nat, sp: SentPacket)
    requires i < |sent|
    ensures CountNacked(sent[i := sp]) ==
      CountNacked(sent) - (if sent[i].nacked then 1 else 0) + (if sp.nacked then 1 else 0)
    decreases |sent|
  {
    var n := |sent| - 1;
    if i < n {
      CountNackedUpdate(sent[..n], i, sp);
      assert sent[i := sp][..n] == sent[..n][i := sp];
    } else {
      assert sent[i := sp][..n] == sent[..n];
    }
  }

  lemma {:induction false} CountNackedTail(sent: seq<SentPacket>)
    requires sent != []
    ensures CountNacked(sent) == CountNacked(sent[1..]) + if sent[0].nacked then 1 else 0
    decreases |sent|
  {
    var n := |sent| - 1;
    if n > 0 {
      CountNackedTail(sent[..n]);
      assert sent[..n][1..] == sent[1..][..n-1];
    } else {
      assert sent[1..] == [] && sent[..n] == [];
    }
  }

  // ---------------------------------------------------------------- finding packets

  lemma {:induction false} FindInWindow(mss: nat, sent: seq<SentPacket>, base: nat, highest: nat, seqno: nat)
    requires mss > 0 && Window(mss, sent, base, highest)
    requires WasSent(mss, highest, seqno) && seqno > base
    ensures IndexOf(sent, seqno) < |sent|
    ensures IndexOf(sent, seqno) == 0 <==> seqno == base + 1
    decreases |sent|
  {
    var next := base + 1;
    assert IsSeq(mss, next);
    if seqno != next {
      SeqGap(mss, next, seqno);
      WindowTail(mss, sent, base, highest);
      FindInWindow(mss, sent[1..], base + mss, highest, seqno);
    }
  }

  lemma WindowTail(mss: nat, sent: seq<SentPacket>, base: nat, highest: nat)
    requires mss > 0 && Window(mss, sent, base, highest) && sent != []
    ensures Window(mss, sent[1..], base + mss, highest)
  {
    var tail := sent[1..];
    forall i, j | 0 <= i && j == i + 1 && j < |tail| ensures tail[j].seqno == tail[i].seqno + mss {
      assert sent[j+1].seqno == sent[i+1].seqno + mss;
    }
  }

  lemma WindowHighest(mss: nat, sent: seq<SentPacket>, base: nat, highest: nat)
    requires mss > 0 && Window(mss, sent, base, highest)
    ensures base <= highest
    ensures forall i :: 0 <= i < |sent| ==> WasSent(mss, highest, sent[i].seqno) && sent[i].seqno > base
  {
  }

  lemma WindowAppend(mss: nat, sent: seq<SentPacket>, base: nat, highest: nat, sp: SentPacket)
    requires mss > 0 && Window(mss, sent, base, highest) && sp.seqno == highest + 1
    ensures Window(mss, sent + [sp], base, highest + mss)
  {
    assert IsSeq(mss, sp.seqno);
  }

  // ---------------------------------------------------------------- sending

  /** What sending leaves alone. */
  ghost predicate SendFrame(s: Sender, s': Sender) {
    && s'.highestSent >= s.highestSent && s'.flowFinished == s.flowFinished
  }

  lemma WindowUpdate(mss: nat, sent: seq<SentPacket>, i: nat, sp: SentPacket, base: nat, highest: nat)
    requires mss > 0 && Window(mss, sent, base, highest) && i < |sent| && sp.seqno == sent[i].seqno
    ensures Window(mss, sent[i := sp], base, highest)
  {
    var sent' := sent[i := sp];
    assert forall k :: 0 <= k < |sent| ==> sent'[k].seqno == sent[k].seqno;
  }

  lemma ResendInv(cfg: Config, s: Sender, i: nat, clock: Clock, h: History)
    requires cfg.Valid() && SenderInv(cfg, s, h) && i < |s.sent| && !s.sent[i].acked
    ensures var s' := ResendPacket(cfg, s, i, clock); SenderInv(cfg, s', h) && SendFrame(s, s')
  {
    hide MinTimeout, OutstandingBytes, Window, CountNacked;
    if CanResend(cfg, s) {
      var sp := s.sent[i];
      var sp' := sp.(nacked := false, timer := clock.now + clock.service + cfg.rto, timedOut := false);
      WindowUpdate(cfg.mss, s.sent, i, sp', h.maxCum, s.highestSent);
      CountNackedUpdate(s.sent, i, sp');
      assert WasSent(cfg.mss, s.highestSent, sp.seqno) by {
        WindowHighest(cfg.mss, s.sent, h.maxCum, s.highestSent);
      }
    }
  }

  lemma RetransmitOneInv(cfg: Config, s: Sender, i: nat, clock: Clock, h: History)
    requires cfg.Valid() && SenderInv(cfg, s, h) && i < |s.sent|
    ensures var s' := RetransmitOne(cfg, s, i, clock); SenderInv(cfg, s', h) && SendFrame(s, s')
  {
    hide MinTimeout, OutstandingBytes, Window;
    var sp := s.sent[i];
    if !sp.acked && (sp.timedOut || sp.nacked) {
      ResendInv(cfg, if CanResend(cfg, s) then s else s.(rtxPending := true), i, clock, h);
    }
  }

  lemma TimeoutOneInv(cfg: Config, s: Sender, i: nat, clock: Clock, h: History)
    requires cfg.Valid() && SenderInv(cfg, s, h) && i < |s.sent|
    ensures var s' := TimeoutOne(cfg, s, i, clock); SenderInv(cfg, s', h) && SendFrame(s, s')
  {
    if TimesOut(cfg, s, i, clock) {
      WindowUpdate(cfg.mss, s.sent, i, s.sent[i].(timedOut := true), h.maxCum, s.highestSent);
      CountNackedUpdate(s.sent, i, s.sent[i].(timedOut := true));
    }
  }

  lemma {:induction false} RetransmitInv(cfg: Config, s: Sender, i: nat, clock: Clock, h: History)
    requires cfg.Valid() && SenderInv(cfg, s, h) && i <= |s.sent|
    ensures var s' := RetransmitFrom(cfg, s, i, clock); SenderInv(cfg, s', h) && SendFrame(s, s')
    decreases |s.sent| - i
  {
    hide TimeoutOne, RetransmitOne, Window, MinTimeout;
    if i < |s.sent| {
      TimeoutOneInv(cfg, s, i, clock, h);
      var s1 := TimeoutOne(cfg, s, i, clock);
      RetransmitOneInv(cfg, s1, i, clock, h);
      RetransmitInv(cfg, RetransmitOne(cfg, s1, i, clock), i + 1, clock, h);
    }
  }

  lemma SendNewInv(cfg: Config, s: Sender, clock: Clock, h: History)
    requires cfg.Valid() && SenderInv(cfg, s, h) && CanSendNew(cfg, s)
    requires forall o :: o in h.oooDone ==> WasSent(cfg.mss, s.highestSent, o)
    ensures SenderInv(cfg, SendNew(cfg, s, clock), h)
  {
    hide MinTimeout, OutstandingBytes, Window, CountNacked, WasSent, CanSendNew, Aligned;
    var sp := SentPacket(clock.now + clock.service + cfg.rto, s.highestSent + 1, false, false, false);
    WindowAppend(cfg.mss, s.sent, h.maxCum, s.highestSent, sp);
    CountAppended(s.sent, sp);
    NewIsUnknown(cfg, s.highestSent, h);
    WireGrows(cfg, s.wire, s.wire + [s.highestSent + 1], h.maxCum, s.highestSent, s.sent);
  }

  lemma CountAppended(sent: seq<SentPacket>, sp: SentPacket)
    requires !sp.nacked
    ensures CountNacked(sent + [sp]) == CountNacked(sent)
  {
    assert (sent + [sp])[..|sent|] == sent;
  }

  lemma NewIsUnknown(cfg: Config, highest: nat, h: History)
    requires cfg.Valid() && forall o :: o in h.oooDone ==> WasSent(cfg.mss, highest, o)
    ensures highest + 1 !in h.oooDone
  {
  }

  lemma WireGrows(cfg: Config, wire: seq<nat>, wire': seq<nat>, base: nat, highest: nat, sent: seq<SentPacket>)
    requires cfg.Valid() && Window(cfg.mss, sent, base, highest) && wire' == wire + [highest + 1]
    requires forall x :: x in wire ==> WasSent(cfg.mss, highest, x)
    ensures forall x :: x in wire' ==> WasSent(cfg.mss, highest + cfg.mss, x)
  {
    hide Chain, Aligned;
    assert Aligned(cfg.mss, highest);
  }

  lemma {:induction false} SendLoopInv(cfg: Config, s: Sender, clock: Clock, h: History)
    requires cfg.Valid() && SenderInv(cfg, s, h)
    requires forall o :: o in h.oooDone ==> WasSent(cfg.mss, s.highestSent, o)
    ensures var s' := SendLoop(cfg, s, clock); SenderInv(cfg, s', h) && SendFrame(s, s')
    decreases s.permits
  {
    if CanSendNew(cfg, s) {
      SendNewInv(cfg, s, clock, h);
      SendLoopInv(cfg, SendNew(cfg, s, clock), clock, h);
    }
  }

  lemma SendPacketsInv(cfg: Config, s: Sender, clock: Clock, h: History)
    requires cfg.Valid() && SenderInv(cfg, s, h)
    requires forall o :: o in h.oooDone ==> WasSent(cfg.mss, s.highestSent, o)
    ensures var s' := SendPackets(cfg, s, clock); SenderInv(cfg, s', h) && SendFrame(s, s')
  {
    if s.rtxPending {
      RetransmitInv(cfg, s.(rtxPending := false), 0, clock, h);
      SendLoopInv(cfg, RetransmitFrom(cfg, s.(rtxPending := false), 0, clock), clock, h);
    } else {
      SendLoopInv(cfg, s, clock, h);
    }
  }

  // ---------------------------------------------------------------- acknowledgements

  /** The erase loop without its `acked` disjunct. */
  function DropCovered(sent: seq<SentPacket>, ackno: nat): seq<SentPacket> {
    if sent != [] && sent[0].seqno <= ackno then DropCovered(sent[1..], ackno) else sent
  }

  function Max(a: nat, b: nat): nat { if a > b then a else b }

  /** On a cumulative acknowledgement the `acked` disjunct of the erase loop never takes effect, and what
      is left starts right after the larger of the old and the new acknowledgement. */
  lemma {:induction false} CumulativeDrop(cfg: Config, sent: seq<SentPacket>, base: nat, highest: nat, h: History, ackno: nat)
    requires cfg.Valid() && Window(cfg.mss, sent, base, highest)
    requires forall i :: 0 <= i < |sent| ==> (sent[i].acked <==> sent[i].seqno in h.oooDone)
    requires forall c, o :: c in h.cums && o in h.oooDone ==> c + 1 != o
    requires ackno in h.cums && Aligned(cfg.mss, ackno) && ackno <= highest
    requires base in h.cums || base <= ackno
    ensures DropAcked(sent, ackno) == DropCovered(sent, ackno)
    ensures Window(cfg.mss, DropAcked(sent, ackno), Max(base, ackno), highest)
    decreases |sent|
  {
    if sent == [] {
    } else {
      if sent[0].seqno <= ackno {
        AlignedGap(cfg.mss, base, ackno);
        WindowTail(cfg.mss, sent, base, highest);
        CumulativeDrop(cfg, sent[1..], base + cfg.mss, highest, h, ackno);
      } else {
        assert base in h.cums;
        assert !sent[0].acked;
      }
    }
  }

  lemma {:induction false} DroppedTail(sent: seq<SentPacket>, ackno: nat)
    ensures CountNacked(DropAcked(sent, ackno)) <= CountNacked(sent)
    ensures forall i :: 0 <= i < |DropAcked(sent, ackno)| ==> DropAcked(sent, ackno)[i] in sent
    decreases |sent|
  {
    if sent != [] && DropAcked(sent, ackno) != sent {
      hide CountNacked;
      CountNackedTail(sent);
      DroppedTail(sent[1..], ackno);
      forall i | 0 <= i < |DropAcked(sent, ackno)| ensures DropAcked(sent, ackno)[i] in sent {
        assert DropAcked(sent, ackno)[i] in sent[1..];
      }
    }
  }

  lemma CumulativeIsSent(cfg: Config, sink: K.Sink, h: History, highest: nat)
    requires cfg.Valid() && HistoryInv(cfg, sink, h, highest)
    ensures sink.cumulativeAck <= highest
  {
    var c := sink.cumulativeAck;
    if c > 0 {
      K.EmptyReassembles(cfg.mss);
      AlignedGap(cfg.mss, 0, c);
      var last := c - cfg.mss;
      assert IsSeq(cfg.mss, last + 1);
      assert last + 1 in h.got;
    }
  }

  lemma MarkCumulativeInv(cfg: Config, s: Sender, ackno: nat, sink: K.Sink, h: History)
    requires cfg.Valid() && SenderInv(cfg, s, h) && HistoryInv(cfg, sink, h, s.highestSent) && ackno in h.cums
    ensures DropAcked(s.sent, ackno) == DropCovered(s.sent, ackno)
    ensures SenderInv(cfg, UpdateRtxTime(s.(sent := DropAcked(s.sent, ackno))), h.(maxCum := Max(ackno, h.maxCum)))
  {
    hide MinTimeout, DropAcked, DropCovered, Window, K.Reassembles, CountNacked, Aligned;
    CumulativeIsSent(cfg, sink, h, s.highestSent);
    CumulativeDrop(cfg, s.sent, h.maxCum, s.highestSent, h, ackno);
    DroppedTail(s.sent, ackno);
  }

  /** An out-of-order acknowledgement that is not a late one finds its packet, and not at the head. */
  lemma OutOfOrderFound(cfg: Config, s: Sender, seqno: nat, sink: K.Sink, h: History)
    requires cfg.Valid() && SenderInv(cfg, s, h) && HistoryInv(cfg, sink, h, s.highestSent) && seqno in h.ooos
    requires s.sent != [] && s.sent[0].seqno <= seqno + cfg.mss - 1
    ensures 0 < IndexOf(s.sent, seqno) < |s.sent|
  {
    hide Chain;
    assert WasSent(cfg.mss, s.highestSent, seqno);
    assert h.maxCum + 1 != seqno;
    assert IsSeq(cfg.mss, h.maxCum + 1);
    if seqno < h.maxCum + 1 {
      SeqGap(cfg.mss, seqno, h.maxCum + 1);
      assert false;
    }
    FindInWindow(cfg.mss, s.sent, h.maxCum, s.highestSent, seqno);
  }

  /** What marking packet `i` as acknowledged keeps. */
  lemma MarkOutOfOrderInv(cfg: Config, s: Sender, i: nat, h: History)
    requires cfg.Valid() && SenderInv(cfg, s, h) && i < |s.sent|
    ensures var sp := s.sent[i];
      SenderInv(cfg, s.(
        sent := s.sent[i := SentPacket(sp.timer, sp.seqno, true, false, false)],
        nackRtxPending := if sp.nacked then s.nackRtxPending - 1 else s.nackRtxPending),
        h.(oooDone := h.oooDone + {sp.seqno}))
  {
    var sp := s.sent[i];
    var sp' := SentPacket(sp.timer, sp.seqno, true, false, false);
    CountNackedUpdate(s.sent, i, sp');
    WindowUpdate(cfg.mss, s.sent, i, sp', h.maxCum, s.highestSent);
    assert forall j :: 0 <= j < |s.sent| && j != i ==> s.sent[j].seqno != sp.seqno;
  }

  /** An acknowledgement of a packet that is already covered leaves the list as it should be. */
  lemma LateOutOfOrderInv(cfg: Config, s: Sender, seqno: nat, sink: K.Sink, h: History)
    requires cfg.Valid() && SenderInv(cfg, s, h) && HistoryInv(cfg, sink, h, s.highestSent)
    requires s.sent == [] || s.sent[0].seqno > seqno
    ensures SenderInv(cfg, s, h.(oooDone := h.oooDone + {seqno}))
  {
    assert forall j :: 0 <= j < |s.sent| ==> s.sent[j].seqno != seqno;
  }

  lemma AckSent(cfg: Config, m: Msg, sink: K.Sink, h: History, highest: nat)
    requires cfg.Valid() && HistoryInv(cfg, sink, h, highest) && m.Ack? && MsgOk(cfg, m, h, highest)
    ensures m.ackno <= highest
  {
    CumulativeIsSent(cfg, sink, h, highest);
    if m.seqno != 1 {
      assert WasSent(cfg.mss, highest, m.seqno);
    }
  }

  /** Marking an acknowledgement never fails its assertion and leaves the window right after the largest
      cumulative acknowledgement processed. */
  lemma MarkReceivedInv(cfg: Config, s: Sender, m: Msg, sink: K.Sink, h: History)
    requires cfg.Valid() && SenderInv(cfg, s, h) && HistoryInv(cfg, sink, h, s.highestSent)
    requires m.Ack? && MsgOk(cfg, m, h, s.highestSent)
    ensures var r := MarkReceived(cfg, s, m.seqno, m.ackno);
      && r.Some? && SenderInv(cfg, r.value, Acknowledged(h, m))
      && r.value.highestSent == s.highestSent && r.value.flowFinished == s.flowFinished
  {
    hide MinTimeout, DropAcked, DropCovered, DropHeads, Window, HistoryInv;
    if m.seqno == 1 {
      MarkCumulativeInv(cfg, s, m.ackno, sink, h);
    } else if s.sent == [] || s.sent[0].seqno > m.ackno {
      LateOutOfOrderInv(cfg, s, m.seqno, sink, h);
    } else {
      OutOfOrderFound(cfg, s, m.seqno, sink, h);
      MarkOutOfOrderInv(cfg, s, IndexOf(s.sent, m.seqno), h);
    }
  }

  /** The flow ends only when the sink holds all of it, and the sender's clamp on `_highest_sent` changes nothing. */
  lemma ProcessAckInv(cfg: Config, s: Sender, m: Msg, clock: Clock, sink: K.Sink, h: History)
    requires cfg.Valid() && SenderInv(cfg, s, h) && HistoryInv(cfg, sink, h, s.highestSent)
    requires m.Ack? && MsgOk(cfg, m, h, s.highestSent)
    requires s.flowFinished ==> sink.cumulativeAck >= cfg.flowSize
    ensures var r := ProcessAck(cfg, s, m.seqno, m.ackno, clock);
      && r.Some? && SenderInv(cfg, r.value, Acknowledged(h, m)) && r.value.highestSent >= s.highestSent
      && (r.value.flowFinished ==> sink.cumulativeAck >= cfg.flowSize)
  {
    hide MarkReceived, MinTimeout, SendPackets, Chain, K.Reassembles;
    MarkReceivedInv(cfg, s, m, sink, h);
    AckSent(cfg, m, sink, h, s.highestSent);
    var s1 := MarkReceived(cfg, s, m.seqno, m.ackno).value;
    var h' := Acknowledged(h, m);
    if m.ackno >= cfg.flowSize && s1.sent == [] && !s1.flowFinished {
      assert h'.maxCum == s1.highestSent;
      assert h'.maxCum <= sink.cumulativeAck;
    } else {
      var s2 := s1.(highestSent := if m.ackno >= s1.highestSent then m.ackno else s1.highestSent, lastAcked := m.ackno);
      assert s2 == s1.(lastAcked := m.ackno);
      SendPacketsInv(cfg, s2, clock, h');
    }
  }

  lemma MarkNackedInv(cfg: Config, s: Sender, i: nat, h: History)
    requires cfg.Valid() && SenderInv(cfg, s, h) && i < |s.sent|
    ensures SenderInv(cfg, MarkNacked(s, i), h)
  {
    var sp' := s.sent[i].(nacked := true);
    CountNackedUpdate(s.sent, i, sp');
    WindowUpdate(cfg.mss, s.sent, i, sp', h.maxCum, s.highestSent);
  }

  lemma ProcessNackInv(cfg: Config, s: Sender, m: Msg, clock: Clock, h: History)
    requires cfg.Valid() && SenderInv(cfg, s, h)
    requires m.Nack? && ProcessNack(cfg, s, m.seqno, clock).Some?
    ensures var s' := ProcessNack(cfg, s, m.seqno, clock).value; SenderInv(cfg, s', h) && SendFrame(s, s')
  {
    hide IndexOf, MinTimeout, OutstandingBytes, Window;
    var s1 := LimitCwnd(cfg, s);
    assert SenderInv(cfg, s1, h);
    var i := IndexOf(s1.sent, m.seqno);
    MarkNackedInv(cfg, s1, i, h);
    hide ResendPacket;
    ResendInv(cfg, MarkNacked(s1, i), i, clock, h);
  }

  // ---------------------------------------------------------------- steps

  lemma HistoryInvMonotone(cfg: Config, sink: K.Sink, h: History, net: multiset<Msg>, highest: nat, highest': nat)
    requires cfg.Valid() && HistoryInv(cfg, sink, h, highest) && NetInv(cfg, net, h, highest) && highest <= highest'
    ensures HistoryInv(cfg, sink, h, highest') && NetInv(cfg, net, h, highest')
  {
  }

  lemma {:induction false} WireMembers(wire: seq<nat>)
    ensures forall m :: m in WireMsgs(wire) ==> m.Data? && m.seqno in wire
    decreases |wire|
  {
    if wire == [] {
    } else {
      WireMembers(wire[..|wire|-1]);
      forall m | m in WireMsgs(wire) ensures m.Data? && m.seqno in wire {
        if m in WireMsgs(wire[..|wire|-1]) {
          assert m.seqno in wire[..|wire|-1];
        }
      }
    }
  }

  lemma TransmitInv(cfg: Config, st: State, src: Sender)
    requires cfg.Valid() && SenderInv(cfg, src, st.hist) && st.src.highestSent <= src.highestSent
    requires HistoryInv(cfg, st.sink, st.hist, st.src.highestSent)
    requires NetInv(cfg, st.net, st.hist, st.src.highestSent)
    requires src.flowFinished ==> st.sink.cumulativeAck >= cfg.flowSize
    ensures Inv(cfg, Transmit(st, src))
  {
    HistoryInvMonotone(cfg, st.sink, st.hist, st.net, st.src.highestSent, src.highestSent);
    WireMembers(src.wire);
  }

  lemma AcknowledgedInv(cfg: Config, st: State, m: Msg)
    requires cfg.Valid() && Inv(cfg, st) && m in st.net && m.Ack?
    ensures HistoryInv(cfg, st.sink, Acknowledged(st.hist, m), st.src.highestSent)
    ensures NetInv(cfg, st.net - multiset{m}, Acknowledged(st.hist, m), st.src.highestSent)
  {
    assert MsgOk(cfg, m, st.hist, st.src.highestSent);
    var h' := Acknowledged(st.hist, m);
    forall m' | m' in st.net - multiset{m} ensures MsgOk(cfg, m', h', st.src.highestSent) {
      assert m' in st.net;
    }
  }

  lemma FeedbackInv(cfg: Config, st: State, m: Msg, clock: Clock, permits: nat)
    requires cfg.Valid() && Inv(cfg, st)
    requires Enabled(st, Feedback(m, clock, permits)) && Next(cfg, st, Feedback(m, clock, permits)).Some?
    ensures Inv(cfg, Next(cfg, st, Feedback(m, clock, permits)).value)
  {
    assert MsgOk(cfg, m, st.hist, st.src.highestSent);
    var s1 := ReduceUnacked(st.src.(permits := permits), cfg.mss);
    assert SenderInv(cfg, s1, st.hist);
    if m.Ack? {
      ProcessAckInv(cfg, s1, m, clock, st.sink, st.hist);
      AcknowledgedInv(cfg, st, m);
    } else {
      ProcessNackInv(cfg, s1, m, clock, st.hist);
    }
    TransmitInv(cfg, st.(net := st.net - multiset{m}, hist := Acknowledged(st.hist, m)),
      ReceivePacket(cfg, st.src.(permits := permits), m, clock).value);
  }

  lemma ArriveHistoryInv(cfg: Config, sink: K.Sink, h: History, highest: nat, m: Msg)
    requires cfg.Valid() && HistoryInv(cfg, sink, h, highest) && MsgOk(cfg, m, h, highest) && (m.Data? || m.Header?)
    ensures var (sink', reply) := K.Receive(cfg.mss, sink, m.seqno, m.Header?);
      && HistoryInv(cfg, sink', Arrived(h, m, reply), highest)
      && MsgOk(cfg, reply, Arrived(h, m, reply), highest)
      && sink'.cumulativeAck >= sink.cumulativeAck
  {
    hide K.Receive, Aligned;
    K.ReceiveReassembles(cfg.mss, sink, h.got, m.seqno, m.Header?);
    var (sink', reply) := K.Receive(cfg.mss, sink, m.seqno, m.Header?);
    K.RepliesWellFormed(cfg.mss, sink, m.seqno, m.Header?);
    var h' := Arrived(h, m, reply);
    forall c, o | c in h'.cums && o in h'.ooos ensures c + 1 != o {
      assert o in h.ooos ==> K.AlreadyReceived(sink', o);
    }
  }

  lemma ArriveInv(cfg: Config, st: State, m: Msg)
    requires cfg.Valid() && Inv(cfg, st) && Enabled(st, Arrive(m))
    ensures Inv(cfg, Next(cfg, st, Arrive(m)).value)
  {
    hide SenderInv, HistoryInv, K.Receive;
    var h, highest := st.hist, st.src.highestSent;
    assert MsgOk(cfg, m, h, highest);
    ArriveHistoryInv(cfg, st.sink, h, highest, m);
    var (sink', reply) := K.Receive(cfg.mss, st.sink, m.seqno, m.Header?);
    var h' := Arrived(h, m, reply);
    SenderInvFrame(cfg, st.src, h, h');
    forall m' | m' in st.net - multiset{m} + multiset{reply} ensures MsgOk(cfg, m', h', highest) {
      if m' != reply {
        assert m' in st.net;
      }
    }
  }

  lemma SenderInvFrame(cfg: Config, s: Sender, h: History, h': History)
    requires cfg.Valid() && SenderInv(cfg, s, h) && h'.maxCum == h.maxCum && h'.oooDone == h.oooDone
    ensures SenderInv(cfg, s, h')
  {
  }

  lemma NextInv(cfg: Config, st: State, step: Step)
    requires cfg.Valid() && Inv(cfg, st) && Enabled(st, step) && Next(cfg, st, step).Some?
    ensures Inv(cfg, Next(cfg, st, step).value)
  {
    match step
    case Start(clock, permits) =>
      var s := st.src.(permits := permits).(maxCwnd := cfg.bdp, cwnd := cfg.bdp);
      assert SenderInv(cfg, s, st.hist);
      SendPacketsInv(cfg, s, clock, st.hist);
      TransmitInv(cfg, st, SendPackets(cfg, s, clock));
    case PacedSend(clock, permits) =>
      var s := st.src.(permits := permits);
      SendPacketsInv(cfg, s, clock, st.hist);
      TransmitInv(cfg, st, SendPackets(cfg, s, clock));
    case TimerScan(_, _) =>
    case Feedback(m, clock, permits) => FeedbackInv(cfg, st, m, clock, permits);
    case Arrive(m) => ArriveInv(cfg, st, m);
    case Lose(m) =>
    case Duplicate(m) =>
    case Trim(seqno) => assert MsgOk(cfg, Data(seqno), st.hist, st.src.highestSent);
  }

  lemma InitInv(cfg: Config, startingCwnd: nat)
    requires cfg.Valid()
    ensures Inv(cfg, InitState(startingCwnd))
  {
    K.EmptyReassembles(cfg.mss);
  }

  lemma {:induction false} ReachesInv(cfg: Config, a: State, steps: seq<Step>, b: State)
    requires cfg.Valid() && Inv(cfg, a) && Reaches(cfg, a, steps, b)
    ensures Inv(cfg, b)
    decreases |steps|
  {
    if steps == [] {
    } else {
      NextInv(cfg, a, steps[0]);
      ReachesInv(cfg, Next(cfg, a, steps[0]).value, steps[1..], b);
    }
  }

  lemma {:induction false} ReachesExtend(cfg: Config, a: State, steps: seq<Step>, b: State, step: Step)
    requires cfg.Valid() && Reaches(cfg, a, steps, b) && Enabled(b, step) && Next(cfg, b, step).Some?
    ensures Reaches(cfg, a, steps + [step], Next(cfg, b, step).value)
    decreases |steps|
  {
    hide Next;
    if steps == [] {
      assert ([step])[1..] == [];
      assert [] + [step] == [step];
    } else {
      ReachesExtend(cfg, Next(cfg, a, steps[0]).value, steps[1..], b, step);
      assert (steps + [step])[1..] == steps[1..] + [step];
    }
  }
}
