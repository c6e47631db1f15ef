/** What each arrival at the composite queue and each completed service does to the packets, in every reachable state. */
module CompositeEffects {
  import opened Basics
  import opened WeightedRoundRobin
  import E = EventLists
  import opened Composite
  import opened CompositeRuns
  import opened CompositeGuarantees

  function Least(a: int, b: int): int { if a < b then a else b }

  // ---------------------------------------------------------------- arrivals

  /** Where a header goes: onto its ring exactly if its bytes fit in, back to its sender exactly if they do not and
      it can turn round and has not before, and out of the network otherwise. */
  ghost predicate HeaderGoes(c: Config, n: Node, n': Node, p: Packet) {
    var h, h' := n.history, n'.history;
    && n'.queue.low == n.queue.low && h'.acceptedLow == h.acceptedLow
    && if Bytes(n.queue.high) + p.size <= 2000 * c.maxSize then
         && n'.queue.high == n.queue.high + [p] && h'.acceptedHigh == h.acceptedHigh + [p]
         && h'.bounced == h.bounced && h'.dropped == h.dropped
       else
         && n'.queue.high == n.queue.high && h'.acceptedHigh == h.acceptedHigh
         && if p.reversible && !p.bounced then
              h'.bounced == h.bounced + [p.(bounced := true, header := true)] && h'.dropped == h.dropped
            else h'.bounced == h.bounced && h'.dropped == h.dropped + [p]
  }

  /** The phantom queue took `bytes`, up to its size. */
  predicate PhantomTook(c: Config, n: Node, n': Node, bytes: nat) {
    n'.queue.phantom == Least(n.queue.phantom + bytes, c.phantomSize)
  }

  lemma ServingAppends(c: Config, n: Node)
    requires n.queue.high != [] || n.queue.low != []
    ensures var n' := ServeIfIdle(c, n);
      && n'.queue == n.queue.(serv := n'.queue.serv, crt := n'.queue.crt)
      && n'.history == n.history.(begun := n'.history.begun, decisions := n'.history.decisions)
  {
    hide SourceIsPendingRel, DrainTime;
  }

  lemma HeaderGoesWhere(c: Config, n: Node, p: Packet)
    requires n.queue.sizeHigh == Bytes(n.queue.high)
    ensures HeaderGoes(c, n, ReceiveHigh(c, n, p), p)
    ensures ReceiveHigh(c, n, p).queue.phantom == n.queue.phantom
    ensures ReceiveHigh(c, n, p).history.sentLow == n.history.sentLow && ReceiveHigh(c, n, p).history.sentHigh == n.history.sentHigh
  {
    hide ServeIfIdle, Bytes;
    var q := n.queue;
    if q.sizeHigh + p.size <= 2000 * c.maxSize {
      ServingAppends(c, n.(queue := q.(high := q.high + [p], sizeHigh := q.sizeHigh + p.size),
        history := n.history.(acceptedHigh := n.history.acceptedHigh + [p])));
    }
  }

  /** A data packet that fits is queued whole behind the others, and only the low ring and the phantom queue change. */
  lemma DataThatFits(c: Config, n: Node, p: Packet)
    requires Reachable(c, n) && !p.header && Bytes(n.queue.low) + p.size <= c.maxSize
    ensures var n' := ReceivePacket(c, n, p);
      var h, h' := n.history, n'.history;
      && n'.queue.low == n.queue.low + [p] && h'.acceptedLow == h.acceptedLow + [p]
      && n'.queue.high == n.queue.high && h'.acceptedHigh == h.acceptedHigh
      && h'.bounced == h.bounced && h'.dropped == h.dropped && h'.sentLow == h.sentLow && h'.sentHigh == h.sentHigh
      && PhantomTook(c, n, n', if c.inSeries then 0 else p.size)
  {
    hide Reachable, ServeIfIdle, Bytes, Ids, Fifo;
    ConservesPackets(c, n);
    var q := n.queue;
    var n1 := n.(history := n.history.(arrived := n.history.arrived + [p]));
    ServingAppends(c, n1.(queue := q.(low := q.low + [p], sizeLow := q.sizeLow + p.size,
      phantom := if !c.inSeries then AddPhantom(c, q.phantom, p.size) else q.phantom),
      history := n1.history.(acceptedLow := n1.history.acceptedLow + [p])));
  }

  /** A data packet that does not fit is dropped if the queue is told to, and otherwise goes on as a header of the
      header size, marked as trimmed; the phantom queue takes a full packet. */
  lemma DataThatDoesNotFit(c: Config, n: Node, p: Packet)
    requires Reachable(c, n) && !p.header && Bytes(n.queue.low) + p.size > c.maxSize
    ensures var n' := ReceivePacket(c, n, p);
      var h, h' := n.history, n'.history;
      && h'.sentLow == h.sentLow && h'.sentHigh == h.sentHigh
      && PhantomTook(c, n, n', if c.inSeries then 0 else 4160)
      && if c.dropWhenFull then
           && n'.queue.low == n.queue.low && n'.queue.high == n.queue.high
           && h'.dropped == h.dropped + [p] && h'.bounced == h.bounced
           && h'.acceptedLow == h.acceptedLow && h'.acceptedHigh == h.acceptedHigh
         else HeaderGoes(c, n, n', p.(size := c.headerSize, header := true, trim := true))
  {
    hide Reachable, ReceiveHigh, Bytes, Ids, Fifo;
    ConservesPackets(c, n);
    var n1 := n.(history := n.history.(arrived := n.history.arrived + [p]));
    HeaderGoesWhere(c, n1.(queue := n.queue.(phantom := if !c.inSeries then AddPhantom(c, n.queue.phantom, PHANTOM_PACKET)
                                                        else n.queue.phantom)), Strip(c, p));
  }

  /** An arriving header takes the place it finds and leaves the phantom queue alone. */
  lemma HeaderArrives(c: Config, n: Node, p: Packet)
    requires Reachable(c, n) && p.header
    ensures var n' := ReceivePacket(c, n, p);
      && HeaderGoes(c, n, n', p) && n'.queue.phantom == n.queue.phantom
      && n'.history.sentLow == n.history.sentLow && n'.history.sentHigh == n.history.sentHigh
  {
    hide Reachable, ReceiveHigh, Bytes, Ids, Fifo;
    ConservesPackets(c, n);
    HeaderGoesWhere(c, n.(history := n.history.(arrived := n.history.arrived + [p])), p);
  }

  // ---------------------------------------------------------------- departures

  /** A packet that asks for the marking decision when it leaves: all data, and headers that are neither
      acknowledgements, nor pulls, nor tell of a loss. */
  predicate AsksForMark(p: Packet) { p.kind.Other? && !p.trim }

  /** Its loss is charged to a phantom queue in series. */
  predicate TellsOfLoss(p: Packet) { p.kind.Nack? || (p.trim && !p.kind.Ack?) }

  lemma NextServiceKeeps(c: Config, n: Node)
    ensures var n' := NextService(c, n);
      && n'.queue == n.queue.(serv := n'.queue.serv, crt := n'.queue.crt)
      && n'.history == n.history.(begun := n'.history.begun, decisions := n'.history.decisions)
  {
    hide SourceIsPendingRel, DrainTime;
  }

  /** The first completion with a phantom queue takes one packet's worth off it. */
  function AfterFirst(c: Config, n: Node, phantom: int): int {
    if c.usePhantom && n.queue.firstTime then (if phantom < 4160 then 0 else phantom - 4160) else phantom
  }

  lemma StartDrainingKeeps(c: Config, n: Node)
    requires n.queue.phantom >= 0
    ensures var n' := StartDraining(c, n);
      && n'.queue.low == n.queue.low && n'.queue.high == n.queue.high
      && n'.queue.phantom == AfterFirst(c, n, n.queue.phantom)
      && n'.history == n.history.(drainsSet := n'.history.drainsSet)
  {
    hide SourceIsPendingRel;
  }

  lemma DrainsFrom(c: Config, n: Node, n': Node, phantom: int)
    requires n'.queue.firstTime == n.queue.firstTime
    ensures AfterFirst(c, n', phantom) == AfterFirst(c, n, phantom)
  {
  }

  /** What a completion removes and what it sends on. */
  ghost predicate Departs(c: Config, n: Node, n': Node, sent: Packet, phantom: int) {
    var h, h' := n.history, n'.history;
    && (if n.queue.serv.Low? then
          && n.queue.low != [] && n'.queue.low == n.queue.low[1..] && n'.queue.high == n.queue.high
          && h'.sentLow == h.sentLow + [sent] && h'.sentHigh == h.sentHigh
        else
          && n.queue.high != [] && n'.queue.high == n.queue.high[1..] && n'.queue.low == n.queue.low
          && h'.sentHigh == h.sentHigh + [sent] && h'.sentLow == h.sentLow)
    && h'.bounced == h.bounced && h'.dropped == h.dropped
    && h'.acceptedLow == h.acceptedLow && h'.acceptedHigh == h.acceptedHigh
    && n'.queue.phantom == AfterFirst(c, n, phantom)
  }

  lemma CompletionDeparts(c: Config, n: Node, n1: Node, sent: Packet)
    requires n1.queue.phantom >= 0 && n1.queue.firstTime == n.queue.firstTime
    requires Departs(c, n, n1.(queue := n1.queue.(phantom := AfterFirst(c, n, n1.queue.phantom))), sent, n1.queue.phantom)
    ensures Departs(c, n, StartDraining(c, NextService(c, n1)), sent, n1.queue.phantom)
  {
    hide NextService, StartDraining, AfterFirst;
    NextServiceKeeps(c, n1);
    StartDrainingKeeps(c, NextService(c, n1));
    DrainsFrom(c, n, NextService(c, n1), n1.queue.phantom);
  }

  /** A data packet leaves the front of its ring marked exactly if it was marked before or the decision on the
      queue it leaves behind says so; a phantom queue in series takes its bytes. */
  ghost predicate DataLeaves(c: Config, n: Node, n': Node, realDraw: nat, draw: nat)
    requires c.Valid()
  {
    var q := n.queue;
    && q.low != []
    && var p := q.low[0];
       var phantom := if c.inSeries then Least(q.phantom + p.size, c.phantomSize) else q.phantom;
       var behind := q.(low := q.low[1..], sizeLow := Bytes(q.low[1..]), phantom := phantom);
       Departs(c, n, n', p.(ecn := p.ecn || DecideEcn(c, behind, realDraw, draw)), phantom)
  }

  /** A header leaves the front of its ring marked like a data packet if it asks for the decision, and otherwise as it
      is; a phantom queue in series takes a full packet for each loss told. */
  ghost predicate HeaderLeaves(c: Config, n: Node, n': Node, realDraw: nat, draw: nat)
    requires c.Valid()
  {
    var q := n.queue;
    && q.high != []
    && var p := q.high[0];
       var phantom := if c.inSeries && TellsOfLoss(p) then Least(q.phantom + 4160, c.phantomSize) else q.phantom;
       Departs(c, n, n', p.(ecn := p.ecn || (AsksForMark(p) && DecideEcn(c, q, realDraw, draw))), phantom)
  }

  lemma DataDeparts(c: Config, n: Node, realDraw: nat, draw: nat)
    requires c.Valid() && Sizes(c, n.queue) && n.queue.serv.Low? && n.queue.low != []
    ensures CompleteService(c, n, realDraw, draw).Some?
    ensures DataLeaves(c, n, CompleteService(c, n, realDraw, draw).value, realDraw, draw)
  {
    hide NextService, StartDraining, AfterFirst, DecideEcn, KMin, KMax;
    CompletionDeparts(c, n, DepartLow(c, n, realDraw, draw), Mark(n.queue.low[0], DecideEcn(c,
      n.queue.(low := n.queue.low[1..], sizeLow := n.queue.sizeLow - n.queue.low[0].size,
        phantom := if c.inSeries then AddPhantom(c, n.queue.phantom, n.queue.low[0].size) else n.queue.phantom), realDraw, draw)));
  }

  lemma HeaderDeparts(c: Config, n: Node, realDraw: nat, draw: nat)
    requires c.Valid() && Sizes(c, n.queue) && n.queue.serv.High? && n.queue.high != []
    ensures CompleteService(c, n, realDraw, draw).Some?
    ensures HeaderLeaves(c, n, CompleteService(c, n, realDraw, draw).value, realDraw, draw)
  {
    hide NextService, StartDraining, AfterFirst, DecideEcn, KMin, KMax;
    var q, p := n.queue, n.queue.high[0];
    var behind := q.(high := q.high[1..], sizeHigh := q.sizeHigh - p.size);
    SameDecision(c, q, behind, realDraw, draw);
    CompletionDeparts(c, n, DepartHigh(c, n, realDraw, draw),
      if AsksForMark(p) then Mark(p, DecideEcn(c, behind, realDraw, draw)) else p);
  }

  predicate ServiceEndsNext(c: Config, n: Node) {
    && n.events.triggers == [] && n.events.pending != [] && n.events.pending[0].source == c.source
    && !(n.events.pending[0].time == n.queue.drainNext && c.usePhantom)
  }

  lemma TickCompletes(c: Config, n: Node, realDraw: nat, draw: nat)
    requires c.Valid() && Inv(c, n) && ServiceEndsNext(c, n)
    ensures Apply(c, n, Tick(realDraw, draw)) == CompleteService(c, Popped(n), realDraw, draw)
  {
    hide CompleteService, Sizes, Logs, Decisions, TimersMatch, Drains, Serving, Mine, EveryArrivalOnce, BusyIffWaiting;
    EndsNever(c, n);
  }

  lemma EndsNever(c: Config, n: Node)
    requires Inv(c, n)
    ensures n.events.endTime == 0 && E.Inv(n.events)
  {
    hide Sizes, Logs, Decisions, TimersMatch, Drains, Serving, Mine, EveryArrivalOnce, BusyIffWaiting, E.Inv;
  }

  lemma InService(c: Config, n: Node)
    requires c.Valid() && Inv(c, n) && ServiceEndsNext(c, n)
    ensures !n.queue.serv.Invalid?
  {
    hide Sizes, Logs, Decisions, TimersMatch, Drains, Serving, Mine, EveryArrivalOnce, BusyIffWaiting, E.Inv, Core;
    DispatchIsSound(c, n);
  }

  /** In every reachable state in which the end of a service is next, the step sends on the packet that was in
      service, at the front of its ring. */
  lemma CompletionSends(c: Config, n: Node, realDraw: nat, draw: nat)
    requires Reachable(c, n) && ServiceEndsNext(c, n)
    ensures Apply(c, n, Tick(realDraw, draw)).Some? && !n.queue.serv.Invalid?
    ensures var n' := Apply(c, n, Tick(realDraw, draw)).value;
      if n.queue.serv.Low? then DataLeaves(c, n, n', realDraw, draw) else HeaderLeaves(c, n, n', realDraw, draw)
  {
    hide Reachable, Inv, DataLeaves, HeaderLeaves, CompleteService, Sizes, Apply;
    ReachableInv(c, n);
    TickCompletes(c, n, realDraw, draw);
    InService(c, n);
    RingsInUse(c, n);
    var n1 := Popped(n);
    if n.queue.serv.Low? {
      DataDeparts(c, n1, realDraw, draw);
    } else {
      HeaderDeparts(c, n1, realDraw, draw);
    }
    SameLeaves(c, n, n1, CompleteService(c, n1, realDraw, draw).value, realDraw, draw);
  }

  lemma RingsInUse(c: Config, n: Node)
    requires Inv(c, n)
    ensures Sizes(c, n.queue) && (n.queue.serv.Low? ==> n.queue.low != []) && (n.queue.serv.High? ==> n.queue.high != [])
  {
    hide Sizes, Clock, TimersMatch, Drains, Logs, Decisions;
  }

  lemma SameLeaves(c: Config, n: Node, n1: Node, n': Node, realDraw: nat, draw: nat)
    requires c.Valid() && n1.queue == n.queue && n1.history == n.history
    ensures DataLeaves(c, n1, n', realDraw, draw) ==> DataLeaves(c, n, n', realDraw, draw)
    ensures HeaderLeaves(c, n1, n', realDraw, draw) ==> HeaderLeaves(c, n, n', realDraw, draw)
  {
    hide DecideEcn, Bytes;
  }

  /** The decision looks at the low ring's bytes and the phantom queue alone. */
  lemma SameDecision(c: Config, q: Queue, q': Queue, realDraw: nat, draw: nat)
    requires c.Valid() && q'.sizeLow == q.sizeLow && q'.phantom == q.phantom
    ensures DecideEcn(c, q, realDraw, draw) == DecideEcn(c, q', realDraw, draw)
  {
    hide Ramp, KMin, KMax;
  }

  // ---------------------------------------------------------------- services

  /** At most one service was begun, of the packet then at the front of the ring that was chosen, and it ends after
      the time its bytes take. */
  ghost predicate BeginsAtMostOne(c: Config, n: Node, n': Node) {
    || n'.history.begun == n.history.begun
    || exists p :: AtHead(n'.queue, p) && n'.history.begun == n.history.begun + [Service(p, Now(n') + p.size * c.psPerByte)]
  }

  lemma ServeBegins(c: Config, n: Node, choice: Serv, crt: nat)
    requires choice.High? ==> n.queue.high != []
    requires choice.Low? ==> n.queue.low != []
    requires !choice.Invalid? && E.Inv(n.events) && n.events.endTime == 0
    ensures BeginsAtMostOne(c, n, Serve(c, n, choice, crt)) && Now(Serve(c, n, choice, crt)) == Now(n)
  {
    hide E.Inv, SourceIsPendingRel;
    var p := if choice.High? then n.queue.high[0] else n.queue.low[0];
    assert AtHead(Serve(c, n, choice, crt).queue, p);
    KeepsTime(c, n.events, DrainTime(c, p));
  }

  lemma KeepsTime(c: Config, events: E.State, fromNow: nat)
    requires E.Inv(events) && events.endTime == 0
    ensures SourceIsPendingRel(c, events, fromNow).lastTime == events.lastTime
  {
    hide Mine, E.Inv;
    ScheduleRel(c, events, fromNow);
  }

  lemma BeginServiceBegins(c: Config, n: Node)
    requires (n.queue.high != [] || n.queue.low != []) && E.Inv(n.events) && n.events.endTime == 0
    ensures BeginsAtMostOne(c, n, BeginService(c, n))
  {
    hide Serve, BeginsAtMostOne, E.Inv;
    var q := n.queue;
    if q.high != [] && q.low != [] {
      var crt := if q.crt + 1 >= RATIO_HIGH + RATIO_LOW then 0 else q.crt + 1;
      ServeBegins(c, n, if crt < RATIO_HIGH then High else Low, crt);
    } else {
      ServeBegins(c, n, if q.high != [] then High else Low, q.crt);
    }
  }

  lemma SameBegins(c: Config, n: Node, n1: Node, n': Node)
    requires BeginsAtMostOne(c, n1, n') && n.history.begun == n1.history.begun
    ensures BeginsAtMostOne(c, n, n')
  {
  }

  lemma StartDrainingBegins(c: Config, n: Node, n1: Node)
    requires BeginsAtMostOne(c, n, n1) && E.Inv(n1.events) && n1.events.endTime == 0
    ensures BeginsAtMostOne(c, n, StartDraining(c, n1))
  {
    hide SourceIsPendingRel, E.Inv;
    KeepsTime(c, n1.events, c.drain);
  }

  lemma BeginKeepsEvents(c: Config, n: Node)
    requires (n.queue.high != [] || n.queue.low != []) && E.Inv(n.events) && n.events.endTime == 0
    ensures E.Inv(BeginService(c, n).events) && BeginService(c, n).events.endTime == 0
  {
    hide SourceIsPendingRel, Mine, E.Inv, DrainTime;
    if n.queue.high != [] {
      ScheduleRel(c, n.events, DrainTime(c, n.queue.high[0]));
    }
    if n.queue.low != [] {
      ScheduleRel(c, n.events, DrainTime(c, n.queue.low[0]));
    }
  }

  lemma CompletionBegins(c: Config, n: Node, realDraw: nat, draw: nat)
    requires c.Valid() && E.Inv(n.events) && n.events.endTime == 0 && CompleteService(c, n, realDraw, draw).Some?
    ensures BeginsAtMostOne(c, n, CompleteService(c, n, realDraw, draw).value)
  {
    hide BeginService, StartDraining, BeginsAtMostOne, E.Inv, DecideEcn, KMin, KMax, Mark, AddPhantom;
    var n1 := if n.queue.serv.Low? then DepartLow(c, n, realDraw, draw) else DepartHigh(c, n, realDraw, draw);
    if n1.queue.high != [] || n1.queue.low != [] {
      BeginServiceBegins(c, n1);
      BeginKeepsEvents(c, n1);
      SameBegins(c, n, n1, BeginService(c, n1));
    } else {
      NoneBegun(c, n, n1);
    }
    StartDrainingBegins(c, n, NextService(c, n1));
  }

  lemma NoneBegun(c: Config, n: Node, n': Node)
    requires n'.history.begun == n.history.begun
    ensures BeginsAtMostOne(c, n, n')
  {
  }

  lemma ArrivalBegins(c: Config, n: Node, p: Packet)
    requires E.Inv(n.events) && n.events.endTime == 0
    ensures BeginsAtMostOne(c, n, ReceivePacket(c, n, p))
  {
    hide BeginService, BeginsAtMostOne, E.Inv, AddPhantom, Strip;
    forall n1: Node | SameBefore(n, n1) ensures BeginsAtMostOne(c, n, ServeIfIdle(c, n1)) {
      ServeIfIdleBegins(c, n, n1);
    }
    forall n1: Node | n1.history.begun == n.history.begun ensures BeginsAtMostOne(c, n, n1) {
      NoneBegun(c, n, n1);
    }
  }

  ghost predicate SameBefore(n: Node, n1: Node) {
    n1.events == n.events && n1.history.begun == n.history.begun && (n1.queue.high != [] || n1.queue.low != [])
  }

  lemma ServeIfIdleBegins(c: Config, n: Node, n1: Node)
    requires E.Inv(n.events) && n.events.endTime == 0 && SameBefore(n, n1)
    ensures BeginsAtMostOne(c, n, ServeIfIdle(c, n1))
  {
    hide BeginService, BeginsAtMostOne, E.Inv;
    if n1.queue.serv.Invalid? {
      BeginServiceBegins(c, n1);
      SameBegins(c, n, n1, BeginService(c, n1));
    } else {
      NoneBegun(c, n, n1);
    }
  }

  lemma TickBegins(c: Config, n: Node, realDraw: nat, draw: nat)
    requires c.Valid() && Inv(c, n) && RunNext(c, n, realDraw, draw).Some?
    ensures BeginsAtMostOne(c, n, RunNext(c, n, realDraw, draw).value)
  {
    hide Inv, BeginsAtMostOne, E.Inv, CompleteService, DecreasePhantom, E.DoNextEvent;
    EventsSound(c, n);
    var n1 := n.(events := E.DoNextEvent(n.events).value.0);
    forall n2: Node | n2.history.begun == n.history.begun ensures BeginsAtMostOne(c, n, n2) {
      NoneBegun(c, n, n2);
    }
    DrainBegins(c, n1.(history := n.history.(drained := n.history.drained + [Now(n1)])));
    if CompleteService(c, n1, realDraw, draw).Some? {
      CompletionBegins(c, n1, realDraw, draw);
      SameBegins(c, n, n1, CompleteService(c, n1, realDraw, draw).value);
    }
  }

  lemma EventsSound(c: Config, n: Node)
    requires Inv(c, n)
    ensures E.Inv(n.events) && n.events.endTime == 0 && E.DoNextEvent(n.events).Some?
    ensures E.Inv(E.DoNextEvent(n.events).value.0) && E.DoNextEvent(n.events).value.0.endTime == 0
  {
    hide Mine, Sizes, Logs, Decisions, BusyIffWaiting, EveryArrivalOnce, Serving, Drains, TimersMatch;
    E.DispatchInv(n.events);
  }

  lemma DrainBegins(c: Config, n: Node)
    ensures DecreasePhantom(c, n).history.begun == n.history.begun
  {
    hide SourceIsPendingRel;
  }

  /** In every reachable state a step begins at most one service, of the packet at the front of the ring chosen, and
      schedules its end after the time the link takes for the packet's bytes. */
  lemma StepBegins(c: Config, n: Node, s: Step)
    requires Reachable(c, n) && ValidStep(c, s) && Apply(c, n, s).Some?
    ensures BeginsAtMostOne(c, n, Apply(c, n, s).value)
  {
    hide Reachable, Inv, BeginsAtMostOne, E.Inv, RunNext, ReceivePacket;
    ReachableInv(c, n);
    match s
    case Arrive(p) =>
      EventsSound(c, n);
      ArrivalBegins(c, n, p);
    case Tick(realDraw, draw) => TickBegins(c, n, realDraw, draw);
    case Other(_) => NoneBegun(c, n, Apply(c, n, s).value);
  }
}
