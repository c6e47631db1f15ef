/** A two-class output queue that trims packets into headers, serves headers with priority by weighted
    round robin, and meters its load with a phantom queue, driven by the event list. */
module Composite {
  import opened Basics
  import opened WeightedRoundRobin
  import E = EventLists

  const RATIO_HIGH: nat := 20
  const RATIO_LOW: nat := 1
  const PHANTOM_PACKET: nat := 4160   // a full packet, as far as the phantom queue is concerned
  const RANDOM_RANGE: nat := 0x7FFF_FFFF

  datatype Kind = Ack | Nack | Pull | Other

  datatype Packet = Packet(id: nat, size: nat, header: bool, trim: bool, kind: Kind, reversible: bool, bounced: bool, ecn: bool)

  datatype Config = Config(source: nat, maxSize: nat, psPerByte: nat, headerSize: nat, dropWhenFull: bool,
    usePhantom: bool, useBoth: bool, inSeries: bool, phantomSize: nat, drain: nat, kMin: nat, kMax: nat)
  {
    /** Service and drain times are positive, and the real queue's marking ramp is not empty. */
    predicate Valid() {
      psPerByte > 0 && headerSize > 0 && drain > 0 && (useBoth && usePhantom ==> maxSize >= 100)
    }
  }

  datatype Queue = Queue(low: seq<Packet>, high: seq<Packet>, sizeLow: int, sizeHigh: int, phantom: int,
    serv: Serv, crt: nat, drainNext: nat, firstTime: bool, ecnMin: int, ecnMax: int)

  /** A packet in service and the time its service ends. */
  datatype Service = Service(packet: Packet, at: nat)

  /** What has happened so far; only the statements below look at it. */
  datatype History = History(
    arrived: seq<Packet>, acceptedLow: seq<Packet>, acceptedHigh: seq<Packet>, bounced: seq<Packet>, dropped: seq<Packet>,
    sentLow: seq<Packet>, sentHigh: seq<Packet>,
    begun: seq<Service>, completed: seq<Service>, decisions: seq<Decision>, drainsSet: seq<nat>, drained: seq<nat>)

  /** The queue, the simulator's event list and the history. */
  datatype Node = Node(queue: Queue, events: E.State, history: History)

  function InitQueue(c: Config): Queue {
    Queue([], [], 0, 0, 0, Invalid, 0, 0, true, 2 * c.maxSize, 2 * c.maxSize)
  }

  function NoHistory(): History { History([], [], [], [], [], [], [], [], [], [], [], []) }

  function Now(n: Node): nat { n.events.lastTime }

  /** Schedules this queue relative to now, which is never in the past. */
  function SourceIsPendingRel(c: Config, events: E.State, fromNow: nat): E.State {
    E.SourceIsPending(events, c.source, events.lastTime + fromNow).value
  }

  // ---------------------------------------------------------------- service

  function DrainTime(c: Config, p: Packet): nat { p.size * c.psPerByte }

  function Serve(c: Config, n: Node, choice: Serv, crt: nat): Node
    requires choice.High? ==> n.queue.high != []
    requires choice.Low? ==> n.queue.low != []
    requires !choice.Invalid?
  {
    var p := if choice.High? then n.queue.high[0] else n.queue.low[0];
    Node(n.queue.(serv := choice, crt := crt),
         SourceIsPendingRel(c, n.events, DrainTime(c, p)),
         n.history.(begun := n.history.begun + [Service(p, Now(n) + DrainTime(c, p))],
                    decisions := n.history.decisions + [Decision(n.queue.low != [], n.queue.high != [], choice, crt)]))
  }

  /** Weighted round robin between two waiting classes. An idle queue asserts that something is waiting. */
  function BeginService(c: Config, n: Node): Node
    requires n.queue.high != [] || n.queue.low != []
  {
    var q := n.queue;
    if q.high != [] && q.low != [] then
      var crt := if q.crt + 1 >= RATIO_HIGH + RATIO_LOW then 0 else q.crt + 1;
      Serve(c, n, if crt < RATIO_HIGH then High else Low, crt)
    else if q.high != [] then Serve(c, n, High, q.crt)
    else Serve(c, n, Low, q.crt)
  }

  function DecreasePhantom(c: Config, n: Node): Node {
    var q := n.queue;
    Node(q.(phantom := if q.phantom - PHANTOM_PACKET < 0 then 0 else q.phantom - PHANTOM_PACKET,
            drainNext := Now(n) + c.drain),
         SourceIsPendingRel(c, n.events, c.drain),
         n.history.(drainsSet := n.history.drainsSet + [Now(n) + c.drain]))
  }

  function AddPhantom(c: Config, phantom: int, bytes: nat): int {
    if phantom + bytes > c.phantomSize then c.phantomSize else phantom + bytes
  }

  // ---------------------------------------------------------------- marking

  /** The marking probability between the thresholds, scaled to the range of a random draw. */
  function Ramp(size: int, min: int, max: int): int
    requires min < max
  {
    RANDOM_RANGE * (size - min) / (max - min)
  }

  /** Marks above `max`, not up to `min`, and between them when the draw falls under the ramp. */
  predicate Marks(size: int, min: int, max: int, draw: nat) {
    size > max || (size > min && draw < Ramp(size, min, max))
  }

  /** With both queues, a real queue above its minimum marks by its ramp, which has no upper threshold. */
  predicate RealMarks(c: Config, q: Queue, draw: nat)
    requires c.Valid() && c.useBoth && c.usePhantom
  {
    var min, max := c.maxSize / 100 * 20, c.maxSize / 100 * 80;
    q.sizeLow > min && draw < Ramp(q.sizeLow, min, max)
  }

  function KMin(c: Config): nat { (if c.usePhantom then c.phantomSize else c.maxSize) / 100 * c.kMin }
  function KMax(c: Config): nat { (if c.usePhantom then c.phantomSize else c.maxSize) / 100 * c.kMax }

  /** The decision for one packet, from a draw for each queue. The thresholds are overwritten as well. */
  predicate DecideEcn(c: Config, q: Queue, realDraw: nat, draw: nat)
    requires c.Valid()
  {
    if c.useBoth && c.usePhantom then
      || q.phantom > KMax(c)
      || (q.phantom > KMin(c) && (draw < Ramp(q.phantom, KMin(c), KMax(c)) || RealMarks(c, q, realDraw)))
    else
      Marks(if c.usePhantom then q.phantom else q.sizeLow, KMin(c), KMax(c), draw)
  }

  function Mark(p: Packet, ecn: bool): Packet { if ecn then p.(ecn := true) else p }

  // ---------------------------------------------------------------- completion

  function DepartLow(c: Config, n: Node, realDraw: nat, draw: nat): Node
    requires c.Valid() && n.queue.low != []
  {
    var q, h := n.queue, n.history;
    var p := q.low[0];
    var q' := q.(low := q.low[1..], sizeLow := q.sizeLow - p.size,
                 phantom := if c.inSeries then AddPhantom(c, q.phantom, p.size) else q.phantom);
    n.(queue := q'.(serv := Invalid, ecnMin := KMin(c), ecnMax := KMax(c)),
       history := h.(sentLow := h.sentLow + [Mark(p, DecideEcn(c, q', realDraw, draw))],
                     completed := h.completed + [Service(p, Now(n))]))
  }

  function DepartHigh(c: Config, n: Node, realDraw: nat, draw: nat): Node
    requires c.Valid() && n.queue.high != []
  {
    var q, h := n.queue, n.history;
    var p := q.high[0];
    var q' := q.(high := q.high[1..], sizeHigh := q.sizeHigh - p.size);
    var loss := !p.kind.Ack? && (p.kind.Nack? || p.trim);
    var decides := !p.kind.Ack? && !loss && !p.kind.Pull?;
    n.(queue := q'.(serv := Invalid,
                    phantom := if loss && c.inSeries then AddPhantom(c, q.phantom, PHANTOM_PACKET) else q.phantom,
                    ecnMin := if decides then KMin(c) else q.ecnMin,
                    ecnMax := if decides then KMax(c) else q.ecnMax),
       history := h.(sentHigh := h.sentHigh + [if decides then Mark(p, DecideEcn(c, q', realDraw, draw)) else p],
                     completed := h.completed + [Service(p, Now(n))]))
  }

  function NextService(c: Config, n: Node): Node {
    if n.queue.high != [] || n.queue.low != [] then BeginService(c, n) else n
  }

  /** The first completion starts the phantom queue's draining. */
  function StartDraining(c: Config, n: Node): Node {
    if n.queue.phantom >= 0 && n.queue.firstTime && c.usePhantom
    then DecreasePhantom(c, n.(queue := n.queue.(firstTime := false))) else n
  }

  /** `None` is a failed assertion: nothing was in service, or its ring is empty. */
  function CompleteService(c: Config, n: Node, realDraw: nat, draw: nat): Option<Node>
    requires c.Valid()
  {
    match n.queue.serv
    case Low =>
      if n.queue.low == [] then None
      else Some(StartDraining(c, NextService(c, DepartLow(c, n, realDraw, draw))))
    case High =>
      if n.queue.high == [] then None
      else Some(StartDraining(c, NextService(c, DepartHigh(c, n, realDraw, draw))))
    case Invalid => None
  }

  /** The two timers of the queue are told apart by the time alone. */
  function DoNextEvent(c: Config, n: Node, realDraw: nat, draw: nat): Option<Node>
    requires c.Valid()
  {
    if Now(n) == n.queue.drainNext && c.usePhantom then
      Some(DecreasePhantom(c, n.(history := n.history.(drained := n.history.drained + [Now(n)]))))
    else CompleteService(c, n, realDraw, draw)
  }

  // ---------------------------------------------------------------- arrival

  function Strip(c: Config, p: Packet): Packet { p.(size := c.headerSize, header := true, trim := true) }

  function ServeIfIdle(c: Config, n: Node): Node
    requires n.queue.high != [] || n.queue.low != []
  {
    if n.queue.serv.Invalid? then BeginService(c, n) else n
  }

  function ReceiveLow(c: Config, n: Node, p: Packet): Node {
    var q, h := n.queue, n.history;
    ServeIfIdle(c, n.(queue := q.(low := q.low + [p], sizeLow := q.sizeLow + p.size,
                                  phantom := if !c.inSeries then AddPhantom(c, q.phantom, p.size) else q.phantom),
                      history := h.(acceptedLow := h.acceptedLow + [p])))
  }

  function ReceiveHigh(c: Config, n: Node, p: Packet): Node {
    var q, h := n.queue, n.history;
    if q.sizeHigh + p.size > 2000 * c.maxSize then
      if p.reversible && !p.bounced then n.(history := h.(bounced := h.bounced + [p.(bounced := true, header := true)]))
      else n.(history := h.(dropped := h.dropped + [p]))
    else
      ServeIfIdle(c, n.(queue := q.(high := q.high + [p], sizeHigh := q.sizeHigh + p.size),
                        history := h.(acceptedHigh := h.acceptedHigh + [p])))
  }

  function Receive(c: Config, n: Node, p: Packet): Node {
    if p.header then ReceiveHigh(c, n, p)
    else if n.queue.sizeLow + p.size <= c.maxSize then ReceiveLow(c, n, p)
    else
      var full := n.(queue := n.queue.(phantom := if !c.inSeries then AddPhantom(c, n.queue.phantom, PHANTOM_PACKET)
                                                  else n.queue.phantom));
      if c.dropWhenFull then full.(history := full.history.(dropped := full.history.dropped + [p]))
      else ReceiveHigh(c, full, Strip(c, p))
  }

  function ReceivePacket(c: Config, n: Node, p: Packet): Node {
    Receive(c, n.(history := n.history.(arrived := n.history.arrived + [p])), p)
  }
}
