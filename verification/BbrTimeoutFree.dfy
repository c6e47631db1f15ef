/** Runs of the BBR transport without duplication and without retransmission timeouts.
    Loss, reordering and trimming remain. There every packet has one carrier at a time, no assertion of
    the source can fail, and the byte counter of the source is exact while nothing is lost. */
module BbrTimeoutFree {
  import opened Basics
  import opened BbrTypes
  import opened BbrSender
  import opened BbrProtocol
  import opened BbrSafety
  import K = BbrSink

  ghost predicate TimeoutFree(step: Step) {
    !step.Duplicate? && !step.TimerScan?
  }

  /** The data packet a message carries, or answers. */
  function Orig(m: Msg): nat {
    if m.Ack? then m.orig else m.seqno
  }

  ghost predicate IsNacked(sent: seq<SentPacket>, x: nat) {
    exists i :: 0 <= i < |sent| && sent[i].seqno == x && sent[i].nacked
  }

  /** Each packet has at most one of: a copy in flight, a header in flight, an answer to it in flight, the
      `nacked` flag. Its carrier is an acknowledgement exactly if the sink has the packet. */
  ghost predicate OneCarrier(flight: multiset<Msg>, got: set<nat>, sent: seq<SentPacket>) {
    && (forall m :: m in flight ==> flight[m] == 1 && !IsNacked(sent, Orig(m)) && (m.Ack? <==> Orig(m) in got))
    && (forall m, m' :: m in flight && m' in flight && Orig(m) == Orig(m') ==> m == m')
    && (forall x :: x in got ==> !IsNacked(sent, x))
    && (forall m :: m in flight && m.Ack? && m.seqno == 1 ==> m.orig <= m.ackno)
  }

  /** Every packet that counts as outstanding has a carrier. */
  ghost predicate Covered(flight: multiset<Msg>, sent: seq<SentPacket>) {
    forall i :: 0 <= i < |sent| && !sent[i].acked && !sent[i].nacked ==> HasCarrier(flight, sent[i].seqno)
  }

  ghost predicate HasCarrier(flight: multiset<Msg>, x: nat) {
    exists m :: m in flight && Orig(m) == x
  }

  ghost function Flight(net: multiset<Msg>, s: Sender): multiset<Msg> {
    net + WireMsgs(s.wire)
  }

  /** `exact`: nothing has been lost so far. */
  ghost predicate Accounted(cfg: Config, s: Sender, flight: multiset<Msg>, exact: bool) {
    && s.unacked >= cfg.mss * |flight|
    && (exact ==> s.unacked == cfg.mss * |flight| && Covered(flight, s.sent))
  }

  ghost predicate SenderTF(cfg: Config, s: Sender, flight: multiset<Msg>, got: set<nat>, exact: bool) {
    && !s.rtxTimeoutPending
    && (forall i :: 0 <= i < |s.sent| ==> !s.sent[i].timedOut)
    && s.nackRtxPending == CountNacked(s.sent)
    && OneCarrier(flight, got, s.sent)
    && Accounted(cfg, s, flight, exact)
  }

  ghost predicate InvTF(cfg: Config, st: State, exact: bool)
    requires cfg.Valid()
  {
    Inv(cfg, st) && SenderTF(cfg, st.src, st.net, st.hist.got, exact)
  }

  // ---------------------------------------------------------------- carriers

  lemma CarrierAdded(flight: multiset<Msg>, got: set<nat>, sent: seq<SentPacket>, m: Msg)
    requires OneCarrier(flight, got, sent) && !HasCarrier(flight, Orig(m)) && !IsNacked(sent, Orig(m))
    requires m.Ack? <==> Orig(m) in got
    requires m.Ack? && m.seqno == 1 ==> m.orig <= m.ackno
    ensures OneCarrier(flight + multiset{m}, got, sent)
  {
  }

  lemma CarrierRemoved(flight: multiset<Msg>, got: set<nat>, sent: seq<SentPacket>, m: Msg)
    requires OneCarrier(flight, got, sent) && m in flight
    ensures OneCarrier(flight - multiset{m}, got, sent)
    ensures !HasCarrier(flight - multiset{m}, Orig(m))
    ensures |flight - multiset{m}| == |flight| - 1
  {
  }

  lemma WireAppended(net: multiset<Msg>, s: Sender, s': Sender, x: nat)
    requires s'.wire == s.wire + [x]
    ensures Flight(net, s') == Flight(net, s) + multiset{Data(x)}
  {
    assert s'.wire[..|s.wire|] == s.wire;
  }

  lemma MssTimes(mss: nat, n: nat)
    ensures mss * (n + 1) == mss * n + mss
  {
  }

  /** Adding the copy just sent for a packet without carrier, with its list entry set to outstanding. */
  lemma CopySent(cfg: Config, s: Sender, s': Sender, net: multiset<Msg>, got: set<nat>, exact: bool, x: nat)
    requires Accounted(cfg, s, Flight(net, s), exact) && OneCarrier(Flight(net, s), got, s.sent)
    requires s'.unacked == s.unacked + cfg.mss && s'.wire == s.wire + [x]
    requires !HasCarrier(Flight(net, s), x) && x !in got && !IsNacked(s'.sent, x)
    requires forall i :: 0 <= i < |s'.sent| && s'.sent[i].seqno != x ==> s'.sent[i] in s.sent
    ensures Accounted(cfg, s', Flight(net, s'), exact) && OneCarrier(Flight(net, s'), got, s'.sent)
  {
    hide WireMsgs, Flight;
    var flight, m := Flight(net, s), Data(x);
    WireAppended(net, s, s', x);
    MssTimes(cfg.mss, |flight|);
    assert OneCarrier(flight, got, s'.sent) by {
      forall y | IsNacked(s'.sent, y) ensures IsNacked(s.sent, y) {
      }
    }
    CarrierAdded(flight, got, s'.sent, m);
    if exact {
      forall i | 0 <= i < |s'.sent| && !s'.sent[i].acked && !s'.sent[i].nacked
        ensures HasCarrier(flight + multiset{m}, s'.sent[i].seqno)
      {
        if s'.sent[i].seqno == x {
          assert m in flight + multiset{m} && Orig(m) == x;
        } else {
          var j :| 0 <= j < |s.sent| && s.sent[j] == s'.sent[i];
          assert HasCarrier(flight, s.sent[j].seqno);
          var m' :| m' in flight && Orig(m') == s.sent[j].seqno;
          assert m' in flight + multiset{m};
        }
      }
    }
  }

  // ---------------------------------------------------------------- sending

  lemma ResendTF(cfg: Config, s: Sender, i: nat, clock: Clock, h: History, net: multiset<Msg>, got: set<nat>, exact: bool)
    requires cfg.Valid() && SenderInv(cfg, s, h) && i < |s.sent| && !s.sent[i].acked && s.sent[i].nacked
    requires SenderTF(cfg, s, Flight(net, s), got, exact)
    ensures var s' := ResendPacket(cfg, s, i, clock); SenderTF(cfg, s', Flight(net, s'), got, exact)
  {
    hide MinTimeout, OutstandingBytes, WireMsgs, CountNacked, Flight, Accounted, OneCarrier;
    if CanResend(cfg, s) {
      var sp := s.sent[i];
      var sp' := sp.(nacked := false, timer := clock.now + clock.service + cfg.rto, timedOut := false);
      var s' := ResendPacket(cfg, s, i, clock);
      CountNackedUpdate(s.sent, i, sp');
      assert forall j :: 0 <= j < |s.sent| && j != i ==> s.sent[j].seqno != sp.seqno;
      NackedHasNoCarrier(Flight(net, s), got, s.sent, i);
      CopySent(cfg, s, s', net, got, exact, sp.seqno);
    } else {
      assert ResendPacket(cfg, s, i, clock) == s;
    }
  }

  lemma NackedHasNoCarrier(flight: multiset<Msg>, got: set<nat>, sent: seq<SentPacket>, i: nat)
    requires OneCarrier(flight, got, sent) && i < |sent| && sent[i].nacked
    ensures !HasCarrier(flight, sent[i].seqno) && sent[i].seqno !in got
  {
    assert IsNacked(sent, sent[i].seqno);
  }

  lemma RetransmitOneTF(cfg: Config, s: Sender, i: nat, clock: Clock, h: History, net: multiset<Msg>, got: set<nat>, exact: bool)
    requires cfg.Valid() && SenderInv(cfg, s, h) && i < |s.sent|
    requires SenderTF(cfg, s, Flight(net, s), got, exact)
    ensures TimeoutOne(cfg, s, i, clock) == s
    ensures var s' := RetransmitOne(cfg, s, i, clock); SenderTF(cfg, s', Flight(net, s'), got, exact)
  {
    hide SenderInv, ResendPacket, CanResend, OneCarrier, CountNacked, WireMsgs;
    var sp := s.sent[i];
    if !sp.acked && sp.nacked {
      var s1 := if CanResend(cfg, s) then s else s.(rtxPending := true);
      assert SenderInv(cfg, s1, h) by { SenderInvRtxPending(cfg, s, h); }
      ResendTF(cfg, s1, i, clock, h, net, got, exact);
    }
  }

  lemma SenderInvRtxPending(cfg: Config, s: Sender, h: History)
    requires cfg.Valid() && SenderInv(cfg, s, h)
    ensures forall b :: SenderInv(cfg, s.(rtxPending := b), h)
  {
  }

  lemma {:induction false} RetransmitTF(cfg: Config, s: Sender, i: nat, clock: Clock, h: History, net: multiset<Msg>, got: set<nat>, exact: bool)
    requires cfg.Valid() && SenderInv(cfg, s, h) && i <= |s.sent|
    requires SenderTF(cfg, s, Flight(net, s), got, exact)
    ensures var s' := RetransmitFrom(cfg, s, i, clock); SenderTF(cfg, s', Flight(net, s'), got, exact)
    decreases |s.sent| - i
  {
    hide TimeoutOne, RetransmitOne, SenderInv, OneCarrier, Accounted, WireMsgs, CountNacked;
    if i < |s.sent| {
      RetransmitOneTF(cfg, s, i, clock, h, net, got, exact);
      RetransmitOneInv(cfg, s, i, clock, h);
      RetransmitTF(cfg, RetransmitOne(cfg, s, i, clock), i + 1, clock, h, net, got, exact);
    }
  }

  /** Nothing about packets not sent yet is in flight, at the sink or in the list. */
  ghost predicate NothingAbove(flight: multiset<Msg>, got: set<nat>, highest: nat) {
    && (forall m :: m in flight ==> Orig(m) <= highest)
    && (forall x :: x in got ==> x <= highest)
  }

  lemma SendNewTF(cfg: Config, s: Sender, clock: Clock, h: History, net: multiset<Msg>, got: set<nat>, exact: bool)
    requires cfg.Valid() && SenderInv(cfg, s, h) && CanSendNew(cfg, s)
    requires SenderTF(cfg, s, Flight(net, s), got, exact) && NothingAbove(Flight(net, s), got, s.highestSent)
    ensures var s' := SendNew(cfg, s, clock);
      SenderTF(cfg, s', Flight(net, s'), got, exact) && NothingAbove(Flight(net, s'), got, s'.highestSent)
  {
    hide MinTimeout, OutstandingBytes, WireMsgs, Flight, Accounted, OneCarrier, CountNacked, NothingAbove;
    hide Window;
    var s' := SendNew(cfg, s, clock);
    var x := s.highestSent + 1;
    WindowHighest(cfg.mss, s.sent, h.maxCum, s.highestSent);
    NothingNew(Flight(net, s), got, s.highestSent, s'.highestSent, x);
    CountAppended(s.sent, s'.sent[|s.sent|]);
    CopySent(cfg, s, s', net, got, exact, x);
    WireAppended(net, s, s', x);
  }

  lemma NothingNew(flight: multiset<Msg>, got: set<nat>, highest: nat, highest': nat, x: nat)
    requires NothingAbove(flight, got, highest) && x == highest + 1 && highest' >= x
    ensures !HasCarrier(flight, x) && x !in got && NothingAbove(flight + multiset{Data(x)}, got, highest')
  {
  }

  lemma {:induction false} SendLoopTF(cfg: Config, s: Sender, clock: Clock, h: History, net: multiset<Msg>, got: set<nat>, exact: bool)
    requires cfg.Valid() && SenderInv(cfg, s, h)
    requires forall o :: o in h.oooDone ==> WasSent(cfg.mss, s.highestSent, o)
    requires SenderTF(cfg, s, Flight(net, s), got, exact) && NothingAbove(Flight(net, s), got, s.highestSent)
    ensures var s' := SendLoop(cfg, s, clock); SenderTF(cfg, s', Flight(net, s'), got, exact)
    decreases s.permits
  {
    hide SenderTF, SenderInv, NothingAbove;
    if CanSendNew(cfg, s) {
      SendNewTF(cfg, s, clock, h, net, got, exact);
      SendNewInv(cfg, s, clock, h);
      SendLoopTF(cfg, SendNew(cfg, s, clock), clock, h, net, got, exact);
    }
  }

  lemma NothingAboveHolds(cfg: Config, s: Sender, h: History, net: multiset<Msg>, sink: K.Sink, highest: nat)
    requires cfg.Valid() && SenderInv(cfg, s, h) && HistoryInv(cfg, sink, h, highest) && NetInv(cfg, net, h, highest)
    requires highest <= s.highestSent
    ensures NothingAbove(Flight(net, s), h.got, s.highestSent)
  {
    hide Window, K.Reassembles;
    WireMembers(s.wire);
    forall m | m in Flight(net, s) ensures Orig(m) <= s.highestSent {
      if m in net {
        assert MsgOk(cfg, m, h, highest);
      }
    }
  }

  lemma SendPacketsTF(cfg: Config, s: Sender, clock: Clock, h: History, net: multiset<Msg>, sink: K.Sink, exact: bool)
    requires cfg.Valid() && SenderInv(cfg, s, h) && s.wire == []
    requires HistoryInv(cfg, sink, h, s.highestSent) && NetInv(cfg, net, h, s.highestSent)
    requires SenderTF(cfg, s, net, h.got, exact)
    ensures var s' := SendPackets(cfg, s, clock); SenderTF(cfg, s', Flight(net, s'), h.got, exact)
  {
    hide RetransmitFrom, SendLoop, SenderInv, NothingAbove, OneCarrier, Accounted, NetInv, CountNacked;
    assert Flight(net, s) == net;
    assert forall o :: o in h.oooDone ==> WasSent(cfg.mss, s.highestSent, o);
    if s.rtxPending {
      SenderInvRtxPending(cfg, s, h);
      var s0 := s.(rtxPending := false);
      RetransmitTF(cfg, s0, 0, clock, h, net, h.got, exact) by {
        assert Accounted(cfg, s0, Flight(net, s0), exact) by { AccountedFrame(cfg, s, s0, net, exact); }
      }
      RetransmitInv(cfg, s0, 0, clock, h);
      var s1 := RetransmitFrom(cfg, s0, 0, clock);
      NothingAboveHolds(cfg, s1, h, net, sink, s.highestSent);
      SendLoopTF(cfg, s1, clock, h, net, h.got, exact);
    } else {
      NothingAboveHolds(cfg, s, h, net, sink, s.highestSent);
      SendLoopTF(cfg, s, clock, h, net, h.got, exact);
    }
  }

  lemma AccountedFrame(cfg: Config, s: Sender, s': Sender, flight: multiset<Msg>, exact: bool)
    requires Accounted(cfg, s, flight, exact) && s'.unacked == s.unacked && s'.sent == s.sent
    ensures Accounted(cfg, s', flight, exact)
  {
  }

  // ---------------------------------------------------------------- acknowledgements

  /** What a packet's arrival at the source does to the byte counter: it never clips at zero. */
  lemma ReceiveAccounted(cfg: Config, s: Sender, flight: multiset<Msg>, m: Msg, exact: bool)
    requires Accounted(cfg, s, flight, exact) && m in flight
    ensures s.unacked >= cfg.mss
    ensures ReduceUnacked(s, cfg.mss).unacked == s.unacked - cfg.mss
    ensures s.unacked - cfg.mss >= cfg.mss * |flight - multiset{m}|
    ensures exact ==> s.unacked - cfg.mss == cfg.mss * |flight - multiset{m}|
  {
    var rest := flight - multiset{m};
    assert |flight| == |rest| + 1;
    MssTimes(cfg.mss, |rest|);
    assert cfg.mss * |rest| >= 0;
  }

  lemma {:induction false} DropKeepsCount(sent: seq<SentPacket>, ackno: nat)
    requires forall i :: 0 <= i < |sent| && sent[i].seqno <= ackno ==> !sent[i].nacked
    ensures CountNacked(DropCovered(sent, ackno)) == CountNacked(sent)
    ensures forall sp :: sp in DropCovered(sent, ackno) ==> sp in sent
    decreases |sent|
  {
    if sent != [] && sent[0].seqno <= ackno {
      CountNackedTail(sent);
      DropKeepsCount(sent[1..], ackno);
    }
  }

  /** A packet `x` loses its answer `m`; its entry is gone or no longer outstanding. */
  lemma AnswerConsumed(flight: multiset<Msg>, got: set<nat>, sent: seq<SentPacket>, sent': seq<SentPacket>, m: Msg, exact: bool)
    requires OneCarrier(flight, got, sent) && m in flight
    requires exact ==> Covered(flight, sent)
    requires forall i :: 0 <= i < |sent'| ==>
      sent'[i] in sent || (sent'[i].seqno == Orig(m) && sent'[i].acked && !sent'[i].nacked)
    requires forall i :: 0 <= i < |sent'| && sent'[i].seqno == Orig(m) ==> sent'[i].acked
    ensures OneCarrier(flight - multiset{m}, got, sent')
    ensures exact ==> Covered(flight - multiset{m}, sent')
  {
    var rest := flight - multiset{m};
    forall x | IsNacked(sent', x) ensures IsNacked(sent, x) {
    }
    CarrierRemoved(flight, got, sent, m);
    if exact {
      forall i | 0 <= i < |sent'| && !sent'[i].acked && !sent'[i].nacked ensures HasCarrier(rest, sent'[i].seqno) {
        var j :| 0 <= j < |sent| && sent[j] == sent'[i];
        assert HasCarrier(flight, sent[j].seqno);
        var m' :| m' in flight && Orig(m') == sent[j].seqno;
        assert m' in rest;
      }
    }
  }

  /** The list after marking acknowledgement `m`: a sublist of the old one, but for the entry marked. */
  ghost predicate MarkedList(before: seq<SentPacket>, after: seq<SentPacket>, x: nat) {
    && (forall i :: 0 <= i < |after| ==>
          after[i] in before || (after[i].seqno == x && after[i].acked && !after[i].nacked && !after[i].timedOut))
    && (forall i :: 0 <= i < |after| && after[i].seqno == x ==> after[i].acked)
  }

  lemma MarkedCumulative(cfg: Config, s: Sender, ackno: nat, orig: nat, sink: K.Sink, h: History)
    requires cfg.Valid() && SenderInv(cfg, s, h) && HistoryInv(cfg, sink, h, s.highestSent)
    requires ackno in h.cums && orig <= ackno
    requires forall i :: 0 <= i < |s.sent| && s.sent[i].seqno in h.got ==> !s.sent[i].nacked
    ensures var after := DropAcked(s.sent, ackno);
      CountNacked(after) == CountNacked(s.sent) && MarkedList(s.sent, after, orig)
  {
    hide DropAcked, DropCovered, CountNacked, MinTimeout;
    MarkCumulativeInv(cfg, s, ackno, sink, h);
    forall i | 0 <= i < |s.sent| && s.sent[i].seqno <= ackno ensures !s.sent[i].nacked {
      BelowCumulativeIsGot(cfg, sink, h, s.highestSent, s.sent[i].seqno);
    }
    DropKeepsCount(s.sent, ackno);
    var after := DropAcked(s.sent, ackno);
    assert Window(cfg.mss, after, Max(ackno, h.maxCum), s.highestSent);
    assert forall i :: 0 <= i < |after| ==> after[i] in s.sent;
  }

  lemma MarkReceivedList(cfg: Config, s: Sender, m: Msg, sink: K.Sink, h: History)
    requires cfg.Valid() && SenderInv(cfg, s, h) && HistoryInv(cfg, sink, h, s.highestSent)
    requires m.Ack? && MsgOk(cfg, m, h, s.highestSent) && (m.seqno == 1 ==> m.orig <= m.ackno)
    requires forall i :: 0 <= i < |s.sent| && s.sent[i].seqno in h.got ==> !s.sent[i].nacked
    requires s.nackRtxPending == CountNacked(s.sent)
    ensures var r := MarkReceived(cfg, s, m.seqno, m.ackno);
      r.Some? && r.value.nackRtxPending == CountNacked(r.value.sent) && MarkedList(s.sent, r.value.sent, Orig(m))
  {
    hide MinTimeout, DropAcked, DropHeads, CountNacked, K.Reassembles, Chain;
    if m.seqno == 1 {
      MarkedCumulative(cfg, s, m.ackno, m.orig, sink, h);
    } else if s.sent != [] && s.sent[0].seqno <= m.ackno {
      OutOfOrderFound(cfg, s, m.seqno, sink, h);
      var i := IndexOf(s.sent, m.seqno);
      CountNackedUpdate(s.sent, i, SentPacket(s.sent[i].timer, s.sent[i].seqno, true, false, false));
      forall j | 0 <= j < |s.sent| && j != i ensures s.sent[j].seqno != m.seqno {
        WindowDistinct(cfg, s, h, i, j);
      }
    } else {
      forall j | 0 <= j < |s.sent| ensures s.sent[j].seqno != m.seqno {
        if j > 0 {
          WindowOrdered(cfg, s, h, 0, j);
        }
      }
    }
  }

  lemma WindowOrdered(cfg: Config, s: Sender, h: History, i: nat, j: nat)
    requires cfg.Valid() && SenderInv(cfg, s, h) && i < j < |s.sent|
    ensures s.sent[i].seqno < s.sent[j].seqno
  {
  }

  lemma BelowCumulativeIsGot(cfg: Config, sink: K.Sink, h: History, highest: nat, x: nat)
    requires cfg.Valid() && HistoryInv(cfg, sink, h, highest) && IsSeq(cfg.mss, x) && x <= sink.cumulativeAck
    ensures x in h.got
  {
  }

  /** The source after it has marked acknowledgement `m`, before it sends. */
  lemma MarkReceivedTF(cfg: Config, s: Sender, m: Msg, flight: multiset<Msg>, sink: K.Sink, h: History, exact: bool)
    requires cfg.Valid() && SenderInv(cfg, s, h) && HistoryInv(cfg, sink, h, s.highestSent)
    requires m.Ack? && MsgOk(cfg, m, h, s.highestSent) && m in flight
    requires SenderTF(cfg, s, flight, h.got, exact)
    ensures var r := MarkReceived(cfg, ReduceUnacked(s, cfg.mss), m.seqno, m.ackno);
      && r.Some? && r.value.wire == s.wire && r.value.highestSent == s.highestSent
      && SenderTF(cfg, r.value, flight - multiset{m}, h.got, exact)
  {
    hide DropAcked, DropHeads, MinTimeout, CountNacked, HistoryInv, Window, IndexOf, MsgOk;
    ReceiveAccounted(cfg, s, flight, m, exact);
    var s1 := ReduceUnacked(s, cfg.mss);
    forall i | 0 <= i < |s.sent| && s.sent[i].seqno in h.got ensures !s.sent[i].nacked {
      assert s.sent[i].nacked ==> IsNacked(s.sent, s.sent[i].seqno);
    }
    MarkReceivedList(cfg, s1, m, sink, h);
    var s2 := MarkReceived(cfg, s1, m.seqno, m.ackno).value;
    AnswerConsumed(flight, h.got, s.sent, s2.sent, m, exact);
    assert s2.unacked == s1.unacked;
    assert !s2.rtxTimeoutPending;
  }

  /** The source after marking, up to the end of processing acknowledgement `m`. */
  lemma FinishOrSendTF(cfg: Config, s: Sender, m: Msg, clock: Clock, net: multiset<Msg>, sink: K.Sink, h: History, exact: bool)
    requires cfg.Valid() && m.Ack? && m.ackno <= s.highestSent && s.wire == []
    requires SenderInv(cfg, s, h) && HistoryInv(cfg, sink, h, s.highestSent) && NetInv(cfg, net, h, s.highestSent)
    requires SenderTF(cfg, s, net, h.got, exact)
    ensures var s' :=
        if m.ackno >= cfg.flowSize && s.sent == [] && !s.flowFinished then s.(flowFinished := true)
        else SendPackets(cfg,
          s.(highestSent := if m.ackno >= s.highestSent then m.ackno else s.highestSent, lastAcked := m.ackno), clock);
      SenderTF(cfg, s', Flight(net, s'), h.got, exact)
  {
    hide SendPackets, HistoryInv, NetInv, OneCarrier, CountNacked, Accounted, Window;
    if m.ackno >= cfg.flowSize && s.sent == [] && !s.flowFinished {
      var s2 := s.(flowFinished := true);
      assert Flight(net, s2) == net;
      AccountedFrame(cfg, s, s2, net, exact);
    } else {
      var s2 := s.(highestSent := if m.ackno >= s.highestSent then m.ackno else s.highestSent, lastAcked := m.ackno);
      assert s2 == s.(lastAcked := m.ackno);
      AccountedFrame(cfg, s, s2, net, exact);
      SendPacketsTF(cfg, s2, clock, h, net, sink, exact);
    }
  }

  lemma ProcessAckTF(cfg: Config, st: State, m: Msg, clock: Clock, permits: nat, exact: bool)
    requires cfg.Valid() && InvTF(cfg, st, exact) && m in st.net && m.Ack?
    ensures var r := ReceivePacket(cfg, st.src.(permits := permits), m, clock);
      r.Some? && SenderTF(cfg, r.value, Flight(st.net - multiset{m}, r.value), st.hist.got, exact)
  {
    hide MarkReceived, SendPackets, HistoryInv, NetInv, SenderTF, Window, MsgOk;
    var s := st.src.(permits := permits);
    MsgOkIn(cfg, st, m);
    SenderTFPermits(cfg, st.src, permits, st.net, st.hist.got, exact);
    MarkReceivedTF(cfg, s, m, st.net, st.sink, st.hist, exact);
    var s0 := ReduceUnacked(s, cfg.mss);
    MarkReceivedInv(cfg, s0, m, st.sink, st.hist);
    AckSent(cfg, m, st.sink, st.hist, s.highestSent);
    AcknowledgedInv(cfg, st, m);
    FinishOrSendTF(cfg, MarkReceived(cfg, s0, m.seqno, m.ackno).value, m, clock,
      st.net - multiset{m}, st.sink, Acknowledged(st.hist, m), exact);
  }

  lemma SenderTFPermits(cfg: Config, s: Sender, permits: nat, flight: multiset<Msg>, got: set<nat>, exact: bool)
    requires SenderTF(cfg, s, flight, got, exact)
    ensures SenderTF(cfg, s.(permits := permits), flight, got, exact)
  {
  }

  lemma MsgOkIn(cfg: Config, st: State, m: Msg)
    requires cfg.Valid() && Inv(cfg, st) && m in st.net
    ensures MsgOk(cfg, m, st.hist, st.src.highestSent)
  {
  }

  /** A negative acknowledgement always finds its packet, unacknowledged and not yet flagged. */
  lemma NackFindsPacket(cfg: Config, st: State, m: Msg, exact: bool)
    requires cfg.Valid() && InvTF(cfg, st, exact) && m in st.net && m.Nack?
    ensures var i := IndexOf(st.src.sent, m.seqno);
      i < |st.src.sent| && !st.src.sent[i].acked && !st.src.sent[i].nacked && m.seqno !in st.hist.got
  {
    hide Chain;
    var h, s := st.hist, st.src;
    MsgOkIn(cfg, st, m);
    assert m.seqno !in h.got;
    assert h.maxCum <= st.sink.cumulativeAck;
    assert m.seqno > h.maxCum;
    FindInWindow(cfg.mss, s.sent, h.maxCum, s.highestSent, m.seqno);
    var i := IndexOf(s.sent, m.seqno);
    assert !IsNacked(s.sent, Orig(m));
  }

  lemma ProcessNackTF(cfg: Config, st: State, m: Msg, clock: Clock, permits: nat, exact: bool)
    requires cfg.Valid() && InvTF(cfg, st, exact) && m in st.net && m.Nack?
    ensures var r := ReceivePacket(cfg, st.src.(permits := permits), m, clock);
      r.Some? && SenderTF(cfg, r.value, Flight(st.net - multiset{m}, r.value), st.hist.got, exact)
  {
    hide ResendPacket, CanResend, HistoryInv, NetInv, Window, CountNacked, IndexOf, MarkNacked, OneCarrier, Accounted;
    var s, h := st.src, st.hist;
    NackFindsPacket(cfg, st, m, exact);
    var s1 := LimitCwnd(cfg, ReduceUnacked(s.(permits := permits), cfg.mss));
    var i := IndexOf(s1.sent, m.seqno);
    var net' := st.net - multiset{m};
    NackFlagged(cfg, s, s1, m, i, st.net, h, exact);
    var s2 := MarkNacked(s1, i);
    assert SenderInv(cfg, s1, h);
    MarkNackedInv(cfg, s1, i, h);
    MarkNackedFlag(s1, i);
    assert Flight(net', s2) == net';
    ResendTF(cfg, s2, i, clock, h, net', h.got, exact);
    var s3 := ResendPacket(cfg, s2, i, clock);
    AccountedFrame(cfg, s3, s3.(rtxPending := true), Flight(net', s3), exact);
    assert Flight(net', s3.(rtxPending := true)) == Flight(net', s3);
  }

  lemma MarkNackedFlag(s: Sender, i: nat)
    requires i < |s.sent| && !s.sent[i].acked
    ensures var s' := MarkNacked(s, i);
      && |s'.sent| == |s.sent| && s'.sent[i].nacked && !s'.sent[i].acked && s'.wire == s.wire
  {
  }

  /** The packet of a negative acknowledgement takes over from it as the packet's carrier. */
  lemma NackFlagged(cfg: Config, s: Sender, s1: Sender, m: Msg, i: nat, flight: multiset<Msg>, h: History, exact: bool)
    requires cfg.Valid() && SenderInv(cfg, s, h) && SenderTF(cfg, s, flight, h.got, exact) && m in flight && m.Nack?
    requires i < |s.sent| && s.sent[i].seqno == m.seqno && !s.sent[i].nacked && m.seqno !in h.got
    requires s1.sent == s.sent && s1.nackRtxPending == s.nackRtxPending && !s1.rtxTimeoutPending
    requires s1.unacked == ReduceUnacked(s, cfg.mss).unacked
    ensures SenderTF(cfg, MarkNacked(s1, i), flight - multiset{m}, h.got, exact)
  {
    hide CountNacked, Window;
    var sp' := s.sent[i].(nacked := true);
    var s2 := MarkNacked(s1, i);
    var rest := flight - multiset{m};
    ReceiveAccounted(cfg, s, flight, m, exact);
    CountNackedUpdate(s.sent, i, sp');
    CarrierRemoved(flight, h.got, s.sent, m);
    forall x | IsNacked(s2.sent, x) ensures x == m.seqno || IsNacked(s.sent, x) {
    }
    if exact {
      forall j | 0 <= j < |s2.sent| && !s2.sent[j].acked && !s2.sent[j].nacked ensures HasCarrier(rest, s2.sent[j].seqno) {
        assert s2.sent[j] == s.sent[j];
        assert HasCarrier(flight, s.sent[j].seqno);
        var m' :| m' in flight && Orig(m') == s.sent[j].seqno;
        assert s.sent[j].seqno != m.seqno by { WindowDistinct(cfg, s, h, i, j); }
        assert m' in rest;
      }
    }
  }

  lemma WindowDistinct(cfg: Config, s: Sender, h: History, i: nat, j: nat)
    requires cfg.Valid() && SenderInv(cfg, s, h) && i < |s.sent| && j < |s.sent| && i != j
    ensures s.sent[i].seqno != s.sent[j].seqno
  {
  }

  // ---------------------------------------------------------------- the network and the sink

  /** Message `m` of the packet turns into `m'`: a trimmed header, or the sink's reply. */
  lemma CarrierReplaced(cfg: Config, s: Sender, flight: multiset<Msg>, got: set<nat>, got': set<nat>, m: Msg, m': Msg, exact: bool)
    requires SenderTF(cfg, s, flight, got, exact) && m in flight && !m.Ack? && Orig(m') == Orig(m)
    requires got' == if m'.Ack? then got + {Orig(m)} else got
    requires m'.Ack? && m'.seqno == 1 ==> m'.orig <= m'.ackno
    ensures SenderTF(cfg, s, flight - multiset{m} + multiset{m'}, got', exact)
  {
    hide CountNacked;
    var rest := flight - multiset{m};
    CarrierRemoved(flight, got, s.sent, m);
    assert !IsNacked(s.sent, Orig(m));
    assert OneCarrier(rest, got', s.sent);
    CarrierAdded(rest, got', s.sent, m');
    assert |rest + multiset{m'}| == |flight|;
    if exact {
      forall i | 0 <= i < |s.sent| && !s.sent[i].acked && !s.sent[i].nacked
        ensures HasCarrier(rest + multiset{m'}, s.sent[i].seqno)
      {
        var c :| c in flight && Orig(c) == s.sent[i].seqno;
        var c' := if c == m then m' else c;
        assert c' in rest + multiset{m'} && Orig(c') == Orig(c);
      }
    }
  }

  /** Without duplication the sink never receives a packet twice. */
  lemma ArrivesOnce(cfg: Config, st: State, m: Msg, exact: bool)
    requires cfg.Valid() && InvTF(cfg, st, exact) && Enabled(st, Arrive(m))
    ensures !K.AlreadyReceived(st.sink, m.seqno)
  {
    MsgOkIn(cfg, st, m);
    assert m.seqno !in st.hist.got;
    assert IsSeq(cfg.mss, m.seqno);
  }

  lemma ArriveTF(cfg: Config, st: State, m: Msg, exact: bool)
    requires cfg.Valid() && InvTF(cfg, st, exact) && Enabled(st, Arrive(m))
    ensures InvTF(cfg, Next(cfg, st, Arrive(m)).value, exact)
  {
    hide Inv, SenderTF, HistoryInv;
    ArriveInv(cfg, st, m);
    ArrivesOnce(cfg, st, m, exact);
    K.RepliesWellFormed(cfg.mss, st.sink, m.seqno, m.Header?);
    FirstArrival(cfg.mss, st.sink, m.seqno, m.Header?);
    var reply := K.Receive(cfg.mss, st.sink, m.seqno, m.Header?).1;
    var st' := Next(cfg, st, Arrive(m)).value;
    CarrierReplaced(cfg, st.src, st.net, st.hist.got, st'.hist.got, m, reply, exact);
  }

  lemma FirstArrival(mss: nat, k: K.Sink, seqno: nat, trimmed: bool)
    requires mss > 0 && !K.AlreadyReceived(k, seqno)
    ensures var (k', reply) := K.Receive(mss, k, seqno, trimmed);
      (reply.Ack? <==> !trimmed) && (reply.Ack? && reply.seqno == 1 ==> reply.orig <= reply.ackno)
  {
    AbsorbGrows(mss, k.(cumulativeAck := seqno + mss - 1));
  }

  lemma {:induction false} AbsorbGrows(mss: nat, k: K.Sink)
    ensures K.Absorb(mss, k).cumulativeAck >= k.cumulativeAck
    decreases |k.received|
  {
    if k.received != [] && k.received[0] == k.cumulativeAck + 1 {
      AbsorbGrows(mss, K.Sink(k.cumulativeAck + mss, k.received[1..]));
    }
  }

  lemma LoseTF(cfg: Config, st: State, m: Msg, exact: bool)
    requires cfg.Valid() && InvTF(cfg, st, exact) && m in st.net
    ensures InvTF(cfg, Next(cfg, st, Lose(m)).value, false)
  {
    hide SenderInv, HistoryInv, CountNacked;
    CarrierRemoved(st.net, st.hist.got, st.src.sent, m);
    MssTimes(cfg.mss, |st.net| - 1);
  }

  lemma NextTF(cfg: Config, st: State, step: Step, exact: bool)
    requires cfg.Valid() && InvTF(cfg, st, exact) && Enabled(st, step) && TimeoutFree(step)
    ensures Next(cfg, st, step).Some?
    ensures InvTF(cfg, Next(cfg, st, step).value, exact && !step.Lose?)
  {
    hide SendPackets, SenderTF, HistoryInv, SenderInv, NetInv, ReceivePacket;
    match step
    case Start(clock, permits) =>
      var s := st.src.(permits := permits, maxCwnd := cfg.bdp, cwnd := cfg.bdp);
      SenderTFWindow(cfg, st.src, s, st, exact);
      SendPacketsTF(cfg, s, clock, st.hist, st.net, st.sink, exact);
      NextInv(cfg, st, step);
      TransmitTF(cfg, st, SendPackets(cfg, s, clock), exact);
    case PacedSend(clock, permits) =>
      var s := st.src.(permits := permits);
      SenderTFWindow(cfg, st.src, s, st, exact);
      SendPacketsTF(cfg, s, clock, st.hist, st.net, st.sink, exact);
      NextInv(cfg, st, step);
      TransmitTF(cfg, st, SendPackets(cfg, s, clock), exact);
    case Feedback(m, clock, permits) =>
      if m.Ack? {
        ProcessAckTF(cfg, st, m, clock, permits, exact);
      } else {
        ProcessNackTF(cfg, st, m, clock, permits, exact);
      }
      NextInv(cfg, st, step);
      TransmitTF(cfg, st.(net := st.net - multiset{m}, hist := Acknowledged(st.hist, m)),
        ReceivePacket(cfg, st.src.(permits := permits), m, clock).value, exact);
    case Arrive(m) => ArriveTF(cfg, st, m, exact);
    case Lose(m) => LoseTF(cfg, st, m, exact);
    case Trim(seqno) =>
      NextInv(cfg, st, step);
      CarrierReplaced(cfg, st.src, st.net, st.hist.got, st.hist.got, Data(seqno), Header(seqno), exact);
  }

  lemma SenderTFWindow(cfg: Config, s: Sender, s': Sender, st: State, exact: bool)
    requires cfg.Valid() && SenderInv(cfg, s, st.hist) && SenderTF(cfg, s, st.net, st.hist.got, exact)
    requires s' == s.(permits := s'.permits, maxCwnd := s'.maxCwnd, cwnd := s'.cwnd)
    ensures SenderInv(cfg, s', st.hist) && SenderTF(cfg, s', st.net, st.hist.got, exact)
  {
    hide Window, CountNacked, OneCarrier;
  }

  lemma TransmitTF(cfg: Config, st: State, src: Sender, exact: bool)
    requires SenderTF(cfg, src, Flight(st.net, src), st.hist.got, exact)
    ensures var st' := Transmit(st, src); SenderTF(cfg, st'.src, st'.net, st'.hist.got, exact)
  {
    hide CountNacked, OneCarrier, WireMsgs;
  }

  // ---------------------------------------------------------------- whole runs

  ghost predicate TimeoutFreeRun(steps: seq<Step>) {
    forall i :: 0 <= i < |steps| ==> TimeoutFree(steps[i])
  }

  ghost predicate Lossless(steps: seq<Step>) {
    forall i :: 0 <= i < |steps| ==> !steps[i].Lose?
  }

  lemma {:induction false} ReachesTF(cfg: Config, a: State, steps: seq<Step>, b: State, exact: bool)
    requires cfg.Valid() && InvTF(cfg, a, exact) && Reaches(cfg, a, steps, b) && TimeoutFreeRun(steps)
    requires exact ==> Lossless(steps)
    ensures InvTF(cfg, b, exact)
    decreases |steps|
  {
    hide Next, InvTF;
    if steps == [] {
    } else {
      NextTF(cfg, a, steps[0], exact);
      assert exact ==> !steps[0].Lose?;
      ReachesTF(cfg, Next(cfg, a, steps[0]).value, steps[1..], b, exact);
    }
  }

  lemma RunTF(cfg: Config, startingCwnd: nat, steps: seq<Step>, st: State)
    requires cfg.Valid() && Run(cfg, startingCwnd, steps, st) && TimeoutFreeRun(steps)
    ensures InvTF(cfg, st, Lossless(steps))
  {
    InitInv(cfg, startingCwnd);
    assert InvTF(cfg, InitState(startingCwnd), Lossless(steps));
    ReachesTF(cfg, InitState(startingCwnd), steps, st, Lossless(steps));
  }

  /** No assertion of the source ever fails: whatever step comes next, the run goes on. */
  lemma NeverHalts(cfg: Config, startingCwnd: nat, steps: seq<Step>, st: State, step: Step)
    requires cfg.Valid() && Run(cfg, startingCwnd, steps, st) && TimeoutFreeRun(steps)
    requires Enabled(st, step) && TimeoutFree(step)
    ensures Next(cfg, st, step).Some?
    ensures step.Feedback? && step.m.Nack? ==>
      NackAccepted(st.src, step.m.seqno) && !st.src.sent[IndexOf(st.src.sent, step.m.seqno)].nacked
    ensures step.Arrive? ==> !K.AlreadyReceived(st.sink, step.m.seqno)
  {
    hide Next, InvTF;
    RunTF(cfg, startingCwnd, steps, st);
    NextTF(cfg, st, step, Lossless(steps));
    if step.Feedback? && step.m.Nack? {
      NackFindsPacket(cfg, st, step.m, Lossless(steps));
    }
    if step.Arrive? {
      ArrivesOnce(cfg, st, step.m, Lossless(steps));
    }
  }

  /** Every packet has at most one carrier, and the retransmission counter is exact. */
  lemma OneCarrierPerPacket(cfg: Config, startingCwnd: nat, steps: seq<Step>, st: State)
    requires cfg.Valid() && Run(cfg, startingCwnd, steps, st) && TimeoutFreeRun(steps)
    ensures forall m :: m in st.net ==> st.net[m] == 1 && !IsNacked(st.src.sent, Orig(m))
    ensures forall m, m' :: m in st.net && m' in st.net && Orig(m) == Orig(m') ==> m == m'
    ensures forall m :: m in st.net ==> (m.Ack? <==> Orig(m) in st.hist.got)
    ensures st.src.nackRtxPending == CountNacked(st.src.sent)
  {
    RunTF(cfg, startingCwnd, steps, st);
  }

  /** Without the last packet and its message the others still have theirs. */
  lemma RestCovers(flight: multiset<Msg>, sent: seq<SentPacket>, m: Msg)
    requires Covered(flight, sent) && sent != [] && m in flight && Orig(m) == sent[|sent| - 1].seqno
    requires forall i, j :: 0 <= i < j < |sent| ==> sent[i].seqno != sent[j].seqno
    ensures Covered(flight - multiset{m}, sent[..|sent| - 1])
  {
    var n, rest := |sent| - 1, flight - multiset{m};
    forall i | 0 <= i < n && !sent[i].acked && !sent[i].nacked ensures HasCarrier(rest, sent[i].seqno) {
      assert HasCarrier(flight, sent[i].seqno);
      var c :| c in flight && Orig(c) == sent[i].seqno;
      assert c in rest;
    }
  }

  lemma {:induction false} CoveredBytes(mss: nat, flight: multiset<Msg>, sent: seq<SentPacket>)
    requires Covered(flight, sent)
    requires forall i, j :: 0 <= i < j < |sent| ==> sent[i].seqno != sent[j].seqno
    ensures OutstandingBytes(mss, sent) <= mss * |flight|
    decreases |sent|
  {
    if sent == [] {
      assert mss * |flight| >= 0;
    } else {
      var n := |sent| - 1;
      if sent[n].Outstanding() {
        assert HasCarrier(flight, sent[n].seqno);
        var m :| m in flight && Orig(m) == sent[n].seqno;
        var rest := flight - multiset{m};
        RestCovers(flight, sent, m);
        CoveredBytes(mss, rest, sent[..n]);
        assert |flight| == |rest| + 1;
        MssTimes(mss, |rest|);
      } else {
        CoveredBytes(mss, flight, sent[..n]);
      }
    }
  }

  /** While nothing is lost, `_unacked` is exactly one packet's worth for each message in flight, and the
      count of outstanding packets never exceeds it. With losses it can only be larger. A packet that
      arrives at the source always finds enough to subtract. */
  lemma ByteCounterIsExact(cfg: Config, startingCwnd: nat, steps: seq<Step>, st: State)
    requires cfg.Valid() && Run(cfg, startingCwnd, steps, st) && TimeoutFreeRun(steps)
    ensures st.src.unacked >= cfg.mss * |st.net|
    ensures Lossless(steps) ==> st.src.unacked == cfg.mss * |st.net| && GetUnacked(cfg, st.src) <= st.src.unacked
    ensures forall m :: m in st.net ==> ReduceUnacked(st.src, cfg.mss).unacked == st.src.unacked - cfg.mss
  {
    hide OutstandingBytes, K.Reassembles, CountNacked;
    RunTF(cfg, startingCwnd, steps, st);
    if Lossless(steps) {
      CoveredBytes(cfg.mss, st.net, st.src.sent);
    }
    forall m | m in st.net ensures ReduceUnacked(st.src, cfg.mss).unacked == st.src.unacked - cfg.mss {
      ReceiveAccounted(cfg, st.src, st.net, m, false);
    }
  }
}
