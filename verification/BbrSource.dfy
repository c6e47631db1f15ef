/** The BBR source as an object whose methods update its fields in place. */
module BbrSource {
  import opened Basics
  import opened BbrTypes
  import opened BbrSender

  class BBRSrc {
    const cfg: Config
    var sentPackets: seq<SentPacket>
    var highestSent: nat
    var lastAcked: nat
    var unacked: nat
    var nackRtxPending: int
    var rtxPending: bool
    var rtxTimeoutPending: bool
    var rtxTimeout: nat
    var cwnd: nat
    var maxCwnd: nat
    var flowFinished: bool
    var permits: nat
    var wire: seq<nat>

    ghost function View(): Sender
      reads this
    {
      Sender(sentPackets, highestSent, lastAcked, unacked, nackRtxPending, rtxPending, rtxTimeoutPending,
        rtxTimeout, cwnd, maxCwnd, flowFinished, permits, wire)
    }

    constructor (cfg: Config, startingCwnd: nat)
      requires cfg.Valid()
      ensures this.cfg == cfg && View() == InitSender(startingCwnd)
    {
      this.cfg := cfg;
      sentPackets, wire := [], [];
      highestSent, lastAcked, unacked, nackRtxPending := 0, 0, 0, 0;
      rtxPending, rtxTimeoutPending, flowFinished := false, false, false;
      rtxTimeout := TIME_INF;
      cwnd, maxCwnd, permits := startingCwnd, startingCwnd, 0;
    }

    method GetSentPacketIdx(seqno: nat) returns (i: nat)
      ensures i == IndexOf(sentPackets, seqno)
    {
      i := 0;
      while i < |sentPackets|
        invariant i <= |sentPackets|
        invariant forall j :: 0 <= j < i ==> sentPackets[j].seqno != seqno
      {
        if seqno == sentPackets[i].seqno {
          return;
        }
        i := i + 1;
      }
    }

    method RefreshRtxTime()
      modifies this`rtxTimeout
      ensures View() == UpdateRtxTime(old(View()))
    {
      rtxTimeout := TIME_INF;
      for i := 0 to |sentPackets|
        invariant MinTimeout(sentPackets, TIME_INF) == MinTimeout(sentPackets[i..], rtxTimeout)
      {
        var sp := sentPackets[i];
        assert sentPackets[i..][1..] == sentPackets[i+1..];
        if !sp.acked && !sp.nacked && !sp.timedOut && (sp.timer < rtxTimeout || rtxTimeout == TIME_INF) {
          rtxTimeout := sp.timer;
        }
      }
      assert sentPackets[|sentPackets|..] == [];
    }

    method OutstandingSum() returns (missing: nat)
      ensures missing == GetUnacked(cfg, View())
    {
      missing := 0;
      for i := 0 to |sentPackets|
        invariant missing == OutstandingBytes(cfg.mss, sentPackets[..i])
      {
        assert sentPackets[..i+1][..i] == sentPackets[..i];
        if !sentPackets[i].acked && !sentPackets[i].nacked && !sentPackets[i].timedOut {
          missing := missing + cfg.mss;
        }
      }
      assert sentPackets[..|sentPackets|] == sentPackets;
    }

    method TakeUnacked(amount: nat)
      modifies this`unacked
      ensures View() == ReduceUnacked(old(View()), amount)
    {
      if unacked >= amount {
        unacked := unacked - amount;
      } else {
        unacked := 0;
      }
    }

    /** `ok` is false where the source's assertion fails. */
    method MarkAckReceived(seqno: nat, ackno: nat) returns (ok: bool)
      requires cfg.Valid()
      modifies this
      ensures var r := MarkReceived(cfg, old(View()), seqno, ackno);
        ok == r.Some? && View() == if ok then r.value else old(View())
    {
      hide MinTimeout;
      if seqno == 1 {
        while sentPackets != [] && (sentPackets[0].seqno <= ackno || sentPackets[0].acked)
          invariant View() == old(View()).(sent := sentPackets)
          invariant DropAcked(sentPackets, ackno) == DropAcked(old(sentPackets), ackno)
          decreases |sentPackets|
        {
          sentPackets := sentPackets[1..];
        }
        RefreshRtxTime();
        return true;
      }
      if sentPackets == [] || sentPackets[0].seqno > ackno {
        return true;
      }
      var i := GetSentPacketIdx(seqno);
      if i == 0 {
        sentPackets := sentPackets[1..];
        while sentPackets != [] && sentPackets[0].acked
          invariant View() == old(View()).(sent := sentPackets)
          invariant DropHeads(sentPackets) == DropHeads(old(sentPackets)[1..])
          decreases |sentPackets|
        {
          sentPackets := sentPackets[1..];
        }
      } else {
        if i >= |sentPackets| {
          return false;
        }
        var sp := sentPackets[i];
        sentPackets := sentPackets[i := SentPacket(sp.timer, sp.seqno, true, false, false)];
        if sp.nacked {
          nackRtxPending := nackRtxPending - 1;
        }
        lastAcked := sp.seqno + cfg.mss - 1;
      }
      RefreshRtxTime();
      return true;
    }

    method Resend(i: nat, clock: Clock) returns (sent: bool)
      requires i < |sentPackets| && !sentPackets[i].acked
      modifies this
      ensures sent == CanResend(cfg, old(View()))
      ensures View() == ResendPacket(cfg, old(View()), i, clock)
    {
      hide MinTimeout, OutstandingBytes;
      var inFlight := OutstandingSum();
      if inFlight >= cwnd || permits == 0 {
        return false;
      }
      unacked := unacked + cfg.mss;
      permits, wire := permits - 1, wire + [sentPackets[i].seqno];
      if sentPackets[i].nacked {
        nackRtxPending := nackRtxPending - 1;
        sentPackets := sentPackets[i := sentPackets[i].(nacked := false)];
      }
      sentPackets := sentPackets[i := sentPackets[i].(timer := clock.now + clock.service + cfg.rto)];
      sentPackets := sentPackets[i := sentPackets[i].(timedOut := false)];
      assert sentPackets == old(sentPackets)[i := old(sentPackets)[i].(
        nacked := false, timer := clock.now + clock.service + cfg.rto, timedOut := false)];
      RefreshRtxTime();
      return true;
    }

    /** The body of the retransmission loop. */
    method RetransmitAt(i: nat, clock: Clock)
      requires i < |sentPackets|
      modifies this
      ensures View() == RetransmitOne(cfg, TimeoutOne(cfg, old(View()), i, clock), i, clock)
    {
      hide MinTimeout, OutstandingBytes;
      var sp := sentPackets[i];
      if rtxTimeoutPending && !sp.acked && !sp.nacked && sp.timer <= clock.now + cfg.rtoMargin {
        cwnd := cfg.mss;
        sentPackets := sentPackets[i := sp.(timedOut := true)];
        TakeUnacked(cfg.mss);
      }
      assert View() == TimeoutOne(cfg, old(View()), i, clock);
      if !sentPackets[i].acked && (sentPackets[i].timedOut || sentPackets[i].nacked) {
        var success := Resend(i, clock);
        if !success {
          rtxPending := true;
        }
      }
    }

    method Retransmit(clock: Clock)
      modifies this
      ensures View() == RetransmitFrom(cfg, old(View()).(rtxPending := false), 0, clock)
    {
      hide TimeoutOne, RetransmitOne;
      rtxPending := false;
      ghost var start := View();
      var i := 0;
      while i < |sentPackets|
        invariant i <= |sentPackets|
        invariant RetransmitFrom(cfg, View(), i, clock) == RetransmitFrom(cfg, start, 0, clock)
      {
        RetransmitAt(i, clock);
        i := i + 1;
      }
      rtxTimeoutPending := false;
    }

    /** The body of the sending loop. */
    method SendOne(clock: Clock)
      requires CanSendNew(cfg, View())
      modifies this
      ensures View() == SendNew(cfg, old(View()), clock)
    {
      hide MinTimeout, OutstandingBytes;
      var seqno := highestSent + 1;
      highestSent := highestSent + cfg.mss;
      unacked := unacked + cfg.mss;
      sentPackets := sentPackets + [SentPacket(clock.now + clock.service + cfg.rto, seqno, false, false, false)];
      permits, wire := permits - 1, wire + [seqno];
      if rtxTimeout == TIME_INF {
        RefreshRtxTime();
      }
    }

    method SendNewPackets(clock: Clock)
      modifies this
      ensures View() == SendPackets(cfg, old(View()), clock)
    {
      hide OutstandingBytes, RetransmitFrom;
      if rtxPending {
        Retransmit(clock);
      }
      ghost var start := View();
      var inFlight := OutstandingSum();
      while inFlight + cfg.mss <= cwnd && highestSent < cfg.flowSize && permits > 0
        invariant inFlight == GetUnacked(cfg, View())
        invariant SendLoop(cfg, View(), clock) == SendLoop(cfg, start, clock)
        decreases permits
      {
        SendOne(clock);
        inFlight := OutstandingSum();
      }
    }

    method HandleAck(seqno: nat, ackno: nat, clock: Clock) returns (ok: bool)
      requires cfg.Valid()
      modifies this
      ensures var r := ProcessAck(cfg, old(View()), seqno, ackno, clock); ok == r.Some? && (ok ==> View() == r.value)
    {
      hide MarkReceived, SendPackets;
      ok := MarkAckReceived(seqno, ackno);
      if !ok {
        return;
      }
      if ackno >= cfg.flowSize && sentPackets == [] && !flowFinished {
        flowFinished := true;
        return;
      }
      if ackno >= highestSent {
        highestSent := ackno;
      }
      lastAcked := ackno;
      SendNewPackets(clock);
    }

    method LimitWindow()
      modifies this`cwnd
      ensures View() == LimitCwnd(cfg, old(View()))
    {
      if cwnd < cfg.mss {
        cwnd := cfg.mss;
      }
      if cwnd > maxCwnd {
        cwnd := maxCwnd;
      }
      if cwnd < cfg.mss {
        cwnd := cfg.mss;
      }
    }

    /** `ok` is false where one of the source's two assertions fails. */
    method HandleNack(seqno: nat, clock: Clock) returns (ok: bool)
      modifies this
      ensures var r := ProcessNack(cfg, old(View()), seqno, clock); ok == r.Some? && (ok ==> View() == r.value)
    {
      hide MinTimeout, OutstandingBytes;
      LimitWindow();
      var i := GetSentPacketIdx(seqno);
      if i >= |sentPackets| || sentPackets[i].acked {
        return false;
      }
      ghost var before := View();
      if !sentPackets[i].nacked {
        sentPackets := sentPackets[i := sentPackets[i].(nacked := true)];
        nackRtxPending := nackRtxPending + 1;
      }
      assert View() == MarkNacked(before, i);
      var success := Resend(i, clock);
      if !rtxPending && !success {
        rtxPending := true;
      }
      return true;
    }

    /** `restarts`: the source schedules its start event at once. */
    method Receive(m: Msg, clock: Clock) returns (ok: bool, restarts: bool)
      requires cfg.Valid() && (m.Ack? || m.Nack?)
      modifies this
      ensures var r := ReceivePacket(cfg, old(View()), m, clock);
        ok == r.Some? && (ok ==> View() == r.value && restarts == RestartsNow(cfg, r.value))
    {
      hide ProcessAck, ProcessNack;
      restarts := false;
      TakeUnacked(cfg.mss);
      match m {
        case Ack(seqno, ackno, _) => ok := HandleAck(seqno, ackno, clock);
        case Nack(seqno, _) => ok := HandleNack(seqno, clock);
      }
      if ok {
        var missing := OutstandingSum();
        restarts := missing < cwnd && rtxTimeoutPending;
      }
    }

    method Start(clock: Clock)
      modifies this
      ensures View() == StartFlow(cfg, old(View()), clock)
    {
      maxCwnd, cwnd := cfg.bdp, cfg.bdp;
      SendNewPackets(clock);
    }

    /** `restart`: the delay after which the source schedules its start event, if it does. */
    method ScanRtxTimer(now: nat, period: nat) returns (restart: Option<nat>)
      modifies this
      ensures View() == RtxTimerHook(cfg, old(View()), now, period)
      ensures restart == RestartsAfter(old(View()), now, period)
    {
      if highestSent == 0 {
        return None;
      }
      if rtxTimeout == TIME_INF || now + period < rtxTimeout {
        return None;
      }
      if rtxTimeoutPending {
        return None;
      }
      rtxTimeoutPending := true;
      cwnd := cfg.mss;
      return Some(if now > rtxTimeout then 0 else rtxTimeout - now);
    }
  }
}
