/** The BBR source's reliability machine: the list of packets sent and not yet cumulatively acknowledged,
    acknowledgements, negative acknowledgements, retransmission and sending. */
module BbrSender {
  import opened Basics
  import opened BbrTypes

  /** Fixed parameters of a flow. All data packets carry `mss` bytes. */
  datatype Config = Config(mss: nat, flowSize: nat, rto: nat, rtoMargin: nat, bdp: nat)
  {
    predicate Valid() { mss > 0 }
  }

  datatype SentPacket = SentPacket(timer: nat, seqno: nat, acked: bool, nacked: bool, timedOut: bool)
  {
    predicate Outstanding() { !acked && !nacked && !timedOut }
  }

  /** The source's fields. `permits` is the number of packets the pacer still lets out in the
      current activation; `wire` lists the data packets handed to the network in it. */
  datatype Sender = Sender(
    sent: seq<SentPacket>,
    highestSent: nat,
    lastAcked: nat,
    unacked: nat,
    nackRtxPending: int,
    rtxPending: bool,
    rtxTimeoutPending: bool,
    rtxTimeout: nat,
    cwnd: nat,
    maxCwnd: nat,
    flowFinished: bool,
    permits: nat,
    wire: seq<nat>)

  /** The simulated time of an activation and the service time of the host queue. */
  datatype Clock = Clock(now: nat, service: nat)

  /** Zero stands for "no timeout", as in the source. */
  const TIME_INF: nat := 0

  function IndexOf(sent: seq<SentPacket>, seqno: nat): (i: nat)
    ensures i <= |sent|
    ensures i < |sent| ==> sent[i].seqno == seqno
    ensures forall j :: 0 <= j < i ==> sent[j].seqno != seqno
  {
    if sent == [] then 0
    else if sent[0].seqno == seqno then 0
    else 1 + IndexOf(sent[1..], seqno)
  }

  function MinTimeout(sent: seq<SentPacket>, least: nat): nat {
    if sent == [] then least
    else
      var sp := sent[0];
      MinTimeout(sent[1..],
        if sp.Outstanding() && (sp.timer < least || least == TIME_INF) then sp.timer else least)
  }

  function UpdateRtxTime(s: Sender): Sender {
    s.(rtxTimeout := MinTimeout(s.sent, TIME_INF))
  }

  function OutstandingBytes(mss: nat, sent: seq<SentPacket>): nat {
    if sent == [] then 0
    else OutstandingBytes(mss, sent[..|sent|-1]) + if sent[|sent|-1].Outstanding() then mss else 0
  }

  function CountNacked(sent: seq<SentPacket>): nat {
    if sent == [] then 0
    else CountNacked(sent[..|sent|-1]) + if sent[|sent|-1].nacked then 1 else 0
  }

  function GetUnacked(cfg: Config, s: Sender): nat {
    OutstandingBytes(cfg.mss, s.sent)
  }

  function ReduceUnacked(s: Sender, amount: nat): Sender {
    s.(unacked := if s.unacked >= amount then s.unacked - amount else 0)
  }

  /** The cumulative branch's erase loop. */
  function DropAcked(sent: seq<SentPacket>, ackno: nat): seq<SentPacket> {
    if sent != [] && (sent[0].seqno <= ackno || sent[0].acked) then DropAcked(sent[1..], ackno) else sent
  }

  /** The erase loop of the branch for an out-of-order acknowledgement of the head. */
  function DropHeads(sent: seq<SentPacket>): seq<SentPacket> {
    if sent != [] && sent[0].acked then DropHeads(sent[1..]) else sent
  }

  /** `None` is a failed assertion: the acknowledged packet is not in the list. */
  function MarkReceived(cfg: Config, s: Sender, seqno: nat, ackno: nat): Option<Sender>
    requires cfg.Valid()
  {
    if seqno == 1 then
      Some(UpdateRtxTime(s.(sent := DropAcked(s.sent, ackno))))
    else if s.sent == [] || s.sent[0].seqno > ackno then
      Some(s)
    else
      var i := IndexOf(s.sent, seqno);
      if i == 0 then
        Some(UpdateRtxTime(s.(sent := DropHeads(s.sent[1..]))))
      else if i < |s.sent| then
        var sp := s.sent[i];
        Some(UpdateRtxTime(s.(
          sent := s.sent[i := SentPacket(sp.timer, sp.seqno, true, false, false)],
          nackRtxPending := if sp.nacked then s.nackRtxPending - 1 else s.nackRtxPending,
          lastAcked := sp.seqno + cfg.mss - 1)))
      else
        None
  }

  /** Whether `ResendPacket` sends: the window has room and the pacer lets the packet out. */
  predicate CanResend(cfg: Config, s: Sender) {
    GetUnacked(cfg, s) < s.cwnd && s.permits > 0
  }

  /** Sends packet `i` again if it can. */
  function ResendPacket(cfg: Config, s: Sender, i: nat, clock: Clock): Sender
    requires i < |s.sent| && !s.sent[i].acked
  {
    if !CanResend(cfg, s) then s
    else
      var sp := s.sent[i];
      UpdateRtxTime(s.(
        unacked := s.unacked + cfg.mss,
        sent := s.sent[i := sp.(nacked := false, timer := clock.now + clock.service + cfg.rto, timedOut := false)],
        nackRtxPending := if sp.nacked then s.nackRtxPending - 1 else s.nackRtxPending,
        permits := s.permits - 1,
        wire := s.wire + [sp.seqno]))
  }

  predicate TimesOut(cfg: Config, s: Sender, i: nat, clock: Clock)
    requires i < |s.sent|
  {
    s.rtxTimeoutPending && !s.sent[i].acked && !s.sent[i].nacked && s.sent[i].timer <= clock.now + cfg.rtoMargin
  }

  /** The timeout half of the retransmission loop's body. */
  function TimeoutOne(cfg: Config, s: Sender, i: nat, clock: Clock): (s': Sender)
    requires i < |s.sent|
    ensures |s'.sent| == |s.sent|
  {
    if TimesOut(cfg, s, i, clock)
    then ReduceUnacked(s.(cwnd := cfg.mss, sent := s.sent[i := s.sent[i].(timedOut := true)]), cfg.mss)
    else s
  }

  /** The resending half of the retransmission loop's body. */
  function RetransmitOne(cfg: Config, s: Sender, i: nat, clock: Clock): (s': Sender)
    requires i < |s.sent|
    ensures |s'.sent| == |s.sent|
  {
    var sp := s.sent[i];
    if !sp.acked && (sp.timedOut || sp.nacked) then
      ResendPacket(cfg, if CanResend(cfg, s) then s else s.(rtxPending := true), i, clock)
    else s
  }

  function RetransmitFrom(cfg: Config, s: Sender, i: nat, clock: Clock): Sender
    requires i <= |s.sent|
    decreases |s.sent| - i
  {
    if i == |s.sent| then s.(rtxTimeoutPending := false)
    else RetransmitFrom(cfg, RetransmitOne(cfg, TimeoutOne(cfg, s, i, clock), i, clock), i + 1, clock)
  }

  predicate CanSendNew(cfg: Config, s: Sender) {
    GetUnacked(cfg, s) + cfg.mss <= s.cwnd && s.highestSent < cfg.flowSize && s.permits > 0
  }

  /** One iteration of the sending loop. */
  function SendNew(cfg: Config, s: Sender, clock: Clock): Sender
    requires CanSendNew(cfg, s)
  {
    var s' := s.(
      highestSent := s.highestSent + cfg.mss,
      unacked := s.unacked + cfg.mss,
      sent := s.sent + [SentPacket(clock.now + clock.service + cfg.rto, s.highestSent + 1, false, false, false)],
      permits := s.permits - 1,
      wire := s.wire + [s.highestSent + 1]);
    if s'.rtxTimeout == TIME_INF then UpdateRtxTime(s') else s'
  }

  function SendLoop(cfg: Config, s: Sender, clock: Clock): Sender
    decreases s.permits
  {
    if CanSendNew(cfg, s) then SendLoop(cfg, SendNew(cfg, s, clock), clock) else s
  }

  function SendPackets(cfg: Config, s: Sender, clock: Clock): Sender {
    SendLoop(cfg,
      if s.rtxPending then RetransmitFrom(cfg, s.(rtxPending := false), 0, clock) else s,
      clock)
  }

  function ProcessAck(cfg: Config, s: Sender, seqno: nat, ackno: nat, clock: Clock): Option<Sender>
    requires cfg.Valid()
  {
    match MarkReceived(cfg, s, seqno, ackno)
    case None => None
    case Some(s1) =>
      if ackno >= cfg.flowSize && s1.sent == [] && !s1.flowFinished then
        Some(s1.(flowFinished := true))
      else
        var s2 := s1.(highestSent := if ackno >= s1.highestSent then ackno else s1.highestSent, lastAcked := ackno);
        Some(SendPackets(cfg, s2, clock))
  }

  /** `reduce_cwnd(0)` followed by `check_limits_cwnd`. */
  function LimitCwnd(cfg: Config, s: Sender): Sender {
    var c0 := if s.cwnd >= cfg.mss then s.cwnd else cfg.mss;
    var c1 := if c0 > s.maxCwnd then s.maxCwnd else c0;
    s.(cwnd := if c1 < cfg.mss then cfg.mss else c1)
  }

  function MarkNacked(s: Sender, i: nat): Sender
    requires i < |s.sent|
  {
    if s.sent[i].nacked then s
    else s.(sent := s.sent[i := s.sent[i].(nacked := true)], nackRtxPending := s.nackRtxPending + 1)
  }

  /** The two assertions on a negative acknowledgement: its packet is in the list and not acknowledged. */
  predicate NackAccepted(s: Sender, seqno: nat) {
    var i := IndexOf(s.sent, seqno);
    i < |s.sent| && !s.sent[i].acked
  }

  /** `None` is a failed assertion. */
  function ProcessNack(cfg: Config, s: Sender, seqno: nat, clock: Clock): Option<Sender> {
    var s1 := LimitCwnd(cfg, s);
    if !NackAccepted(s1, seqno) then None
    else
      var i := IndexOf(s1.sent, seqno);
      var s2 := MarkNacked(s1, i);
      var s3 := ResendPacket(cfg, s2, i, clock);
      Some(if CanResend(cfg, s2) then s3 else s3.(rtxPending := true))
  }

  /** A packet arrives back at the source. */
  function ReceivePacket(cfg: Config, s: Sender, m: Msg, clock: Clock): Option<Sender>
    requires cfg.Valid() && (m.Ack? || m.Nack?)
  {
    var s1 := ReduceUnacked(s, cfg.mss);
    match m
    case Ack(seqno, ackno, _) => ProcessAck(cfg, s1, seqno, ackno, clock)
    case Nack(seqno, _) => ProcessNack(cfg, s1, seqno, clock)
  }

  /** The flow starts, or the timer event of a retransmission timeout starts it again. */
  function StartFlow(cfg: Config, s: Sender, clock: Clock): Sender {
    SendPackets(cfg, s.(maxCwnd := cfg.bdp, cwnd := cfg.bdp), clock)
  }

  /** The periodic scan of the retransmission timer. */
  function RtxTimerHook(cfg: Config, s: Sender, now: nat, period: nat): Sender {
    if s.highestSent == 0 || s.rtxTimeout == TIME_INF || now + period < s.rtxTimeout || s.rtxTimeoutPending
    then s
    else s.(rtxTimeoutPending := true, cwnd := cfg.mss)
  }

  /** Whether, after a packet arrived back, the source schedules itself to start again at once. */
  predicate RestartsNow(cfg: Config, s: Sender) {
    GetUnacked(cfg, s) < s.cwnd && s.rtxTimeoutPending
  }

  /** How long after a timer scan at `now` the source starts again, if the scan finds a timeout. */
  function RestartsAfter(s: Sender, now: nat, period: nat): Option<nat> {
    if s.highestSent == 0 || s.rtxTimeout == TIME_INF || now + period < s.rtxTimeout || s.rtxTimeoutPending then None
    else Some(if now > s.rtxTimeout then 0 else s.rtxTimeout - now)
  }

  function InitSender(startingCwnd: nat): Sender {
    Sender([], 0, 0, 0, 0, false, false, TIME_INF, startingCwnd, startingCwnd, false, 0, [])
  }
}
