/** Runs of the composite queue together with the event list, and what every run keeps. */
module CompositeRuns {
  import opened Basics
  import opened WeightedRoundRobin
  import E = EventLists
  import opened Composite

  /** `Other` is whatever else uses the event list. */
  datatype Step = Arrive(packet: Packet) | Tick(realDraw: nat, draw: nat) | Other(op: E.Op)

  /** Packets have a size, and only this queue schedules and cancels for itself. */
  predicate ValidStep(c: Config, s: Step) {
    match s
    case Arrive(p) => p.size > 0
    case Tick(_, _) => true
    case Other(Schedule(source, _)) => source != c.source
    case Other(Cancel(source)) => source != c.source
    case Other(Trigger(_)) => true
    case Other(Dispatch) => false
  }

  function RunNext(c: Config, n: Node, realDraw: nat, draw: nat): Option<Node>
    requires c.Valid()
  {
    var next := E.DoNextEvent(n.events);
    if next.None? then None
    else
      var (events, what) := next.value;
      if what.Fired? && what.event.source == c.source then DoNextEvent(c, n.(events := events), realDraw, draw)
      else Some(n.(events := events))
  }

  /** `None` is a failed assertion. */
  function Apply(c: Config, n: Node, s: Step): Option<Node>
    requires c.Valid()
  {
    match s
    case Arrive(p) => Some(ReceivePacket(c, n, p))
    case Tick(realDraw, draw) => RunNext(c, n, realDraw, draw)
    case Other(op) =>
      var events := E.Apply(n.events, op);
      if events.None? then None else Some(n.(events := events.value))
  }

  // ---------------------------------------------------------------- the invariant

  /** The times at which `source` is pending. */
  function Mine(p: seq<E.Event>, source: nat): multiset<nat> {
    if p == [] then multiset{}
    else (if p[0].source == source then multiset{p[0].time} else multiset{}) + Mine(p[1..], source)
  }

  predicate Draining(c: Config, n: Node) { c.usePhantom && !n.queue.firstTime }

  function ServiceTimer(n: Node): multiset<nat> {
    if n.queue.serv.Invalid? || n.history.begun == [] then multiset{}
    else multiset{n.history.begun[|n.history.begun| - 1].at}
  }

  function DrainTimer(c: Config, n: Node): multiset<nat> {
    if Draining(c, n) then multiset{n.queue.drainNext} else multiset{}
  }

  /** One service completion if serving and one drain if draining has started: nothing else is pending. */
  ghost predicate TimersMatch(c: Config, n: Node) {
    Mine(n.events.pending, c.source) == ServiceTimer(n) + DrainTimer(c, n)
  }

  /** Every service begun, but the current one, was completed on its own packet at its own time. */
  ghost predicate Serving(n: Node) {
    var q, h := n.queue, n.history;
    if q.serv.Invalid? then h.begun == h.completed
    else
      && |h.begun| == |h.completed| + 1 && h.begun[..|h.completed|] == h.completed
      && h.begun[|h.completed|].at > 0
      && (q.serv.Low? ==> q.low != [] && h.begun[|h.completed|].packet == q.low[0])
      && (q.serv.High? ==> q.high != [] && h.begun[|h.completed|].packet == q.high[0])
  }

  ghost predicate BusyIffWaiting(q: Queue) {
    q.serv.Invalid? <==> q.low == [] && q.high == []
  }

  /** Every drain that was set, but the next one, has happened at its time, one draining time after the other. */
  ghost predicate Drains(c: Config, n: Node) {
    var h := n.history;
    && (if Draining(c, n) then h.drainsSet == h.drained + [n.queue.drainNext] && n.queue.drainNext > 0
        else h.drainsSet == [] && h.drained == [] && n.queue.drainNext == 0)
    && (forall i :: 0 < i < |h.drainsSet| ==> h.drainsSet[i] == h.drainsSet[i-1] + c.drain)
  }

  function Bytes(s: seq<Packet>): nat {
    if s == [] then 0 else s[0].size + Bytes(s[1..])
  }

  ghost predicate Sizes(c: Config, q: Queue) {
    && q.sizeLow == Bytes(q.low) && q.sizeLow <= c.maxSize
    && q.sizeHigh == Bytes(q.high) && q.sizeHigh <= 2000 * c.maxSize
    && 0 <= q.phantom <= c.phantomSize
    && (forall i :: 0 <= i < |q.low| ==> !q.low[i].header && q.low[i].size > 0)
    && (forall i :: 0 <= i < |q.high| ==> q.high[i].header && q.high[i].size > 0)
  }

  /** `sent` is `p` up to a congestion mark that is set and never cleared. */
  predicate SentAs(sent: Packet, p: Packet) {
    sent == p || sent == p.(ecn := true)
  }

  /** Packets leave in the order they were accepted. */
  ghost predicate Fifo(accepted: seq<Packet>, sent: seq<Packet>, held: seq<Packet>) {
    && |accepted| == |sent| + |held| && accepted[|sent|..] == held
    && forall i :: 0 <= i < |sent| ==> SentAs(sent[i], accepted[i])
  }

  function Ids(s: seq<Packet>): multiset<nat> {
    if s == [] then multiset{} else multiset{s[0].id} + Ids(s[1..])
  }

  ghost predicate EveryArrivalOnce(h: History) {
    Ids(h.arrived) == Ids(h.acceptedLow) + Ids(h.acceptedHigh) + Ids(h.bounced) + Ids(h.dropped)
  }

  ghost predicate Lossless(c: Config, h: History) {
    !c.dropWhenFull ==> forall i :: 0 <= i < |h.dropped| ==> h.dropped[i].header
  }

  ghost predicate Decisions(n: Node) {
    var q, ds := n.queue, n.history.decisions;
    && q.crt == CrtBefore(ds, |ds|) && q.crt <= RATIO_HIGH
    && |ds| == |n.history.begun|
    && (!q.serv.Invalid? ==> ds != [] && ds[|ds| - 1].choice == q.serv)
    && (forall i :: 0 <= i < |ds| ==> RoundRobin(RATIO_HIGH, ds[i], CrtBefore(ds, i)))
    && (forall i :: 0 < i < |ds| && StillWaiting(ds[i-1]) ==> ds[i].lowWaiting)
    && (ds != [] && StillWaiting(ds[|ds| - 1]) ==> q.low != [])
  }

  ghost predicate Logs(c: Config, n: Node) {
    && Fifo(n.history.acceptedLow, n.history.sentLow, n.queue.low)
    && Fifo(n.history.acceptedHigh, n.history.sentHigh, n.queue.high)
    && Lossless(c, n.history)
  }

  ghost predicate Clock(c: Config, n: Node) {
    && E.Inv(n.events) && n.events.endTime == 0
    && (Draining(c, n) ==> n.queue.drainNext >= Now(n))
  }

  /** What holds between steps, except that the queue may be between services. */
  ghost predicate Core(c: Config, n: Node) {
    && Clock(c, n) && TimersMatch(c, n) && Serving(n) && Drains(c, n)
    && Sizes(c, n.queue) && Logs(c, n) && Decisions(n)
  }

  ghost predicate Inv(c: Config, n: Node) {
    Core(c, n) && BusyIffWaiting(n.queue) && EveryArrivalOnce(n.history)
  }

  lemma InitInv(c: Config, events: E.State)
    requires E.Inv(events) && events.endTime == 0 && Mine(events.pending, c.source) == multiset{}
    ensures Inv(c, Node(InitQueue(c), events, NoHistory()))
  {
  }

  // ---------------------------------------------------------------- the event list

  lemma {:induction false} MineInsert(p: seq<E.Event>, e: E.Event, source: nat)
    ensures Mine(E.Insert(p, e), source) == Mine(p, source) + if e.source == source then multiset{e.time} else multiset{}
    decreases |p|
  {
    if p != [] && p[0].time <= e.time {
      MineInsert(p[1..], e, source);
    }
  }

  lemma {:induction false} MineRemove(p: seq<E.Event>, other: nat, source: nat)
    requires other != source
    ensures Mine(E.RemoveFirst(p, other), source) == Mine(p, source)
    decreases |p|
  {
    if p != [] && p[0].source != other {
      MineRemove(p[1..], other, source);
    }
  }

  /** Scheduling relative to now adds one pending time and moves nothing else. */
  lemma ScheduleRel(c: Config, events: E.State, fromNow: nat)
    requires E.Inv(events) && events.endTime == 0
    ensures var events' := SourceIsPendingRel(c, events, fromNow);
      && E.Inv(events') && events'.endTime == 0 && events'.lastTime == events.lastTime
      && Mine(events'.pending, c.source) == Mine(events.pending, c.source) + multiset{events.lastTime + fromNow}
  {
    hide E.Inv, Mine, E.Insert;
    E.ScheduleInv(events, c.source, events.lastTime + fromNow);
    MineInsert(events.pending, E.Event(events.lastTime + fromNow, c.source, events.nextStamp), c.source);
  }

  lemma {:induction false} MineAtLeast(p: seq<E.Event>, source: nat, t: nat)
    requires forall e :: e in p ==> e.time >= t
    ensures forall x :: x in Mine(p, source) ==> x >= t
  {
    if p == [] {
    } else {
      MineAtLeast(p[1..], source, t);
    }
  }

  // ---------------------------------------------------------------- service

  lemma DrainTimePositive(c: Config, p: Packet)
    requires c.Valid() && p.size > 0
    ensures DrainTime(c, p) > 0
  {
    assert p.size * c.psPerByte >= 1 * c.psPerByte;
  }

  lemma ServeCore(c: Config, n: Node, choice: Serv, crt: nat)
    requires c.Valid() && Core(c, n) && n.queue.serv.Invalid? && !choice.Invalid?
    requires choice.High? ==> n.queue.high != []
    requires choice.Low? ==> n.queue.low != []
    requires crt <= RATIO_HIGH
    requires RoundRobin(RATIO_HIGH, Decision(n.queue.low != [], n.queue.high != [], choice, crt), n.queue.crt)
    ensures Core(c, Serve(c, n, choice, crt)) && !Serve(c, n, choice, crt).queue.serv.Invalid?
  {
    hide Serve, Clock, TimersMatch, Serving, Drains, Sizes, Logs, Decisions, RoundRobin;
    ServeTimers(c, n, choice, crt);
    ServeKeeps(c, n, choice, crt);
    ServeDecisions(c, n, choice, crt);
  }

  lemma ServeTimers(c: Config, n: Node, choice: Serv, crt: nat)
    requires Clock(c, n) && TimersMatch(c, n) && n.queue.serv.Invalid? && !choice.Invalid?
    requires choice.High? ==> n.queue.high != []
    requires choice.Low? ==> n.queue.low != []
    ensures Clock(c, Serve(c, n, choice, crt)) && TimersMatch(c, Serve(c, n, choice, crt))
    ensures !Serve(c, n, choice, crt).queue.serv.Invalid?
  {
    hide E.Inv, Mine, SourceIsPendingRel, DrainTime;
    ScheduleRel(c, n.events, DrainTime(c, if choice.High? then n.queue.high[0] else n.queue.low[0]));
  }

  lemma ServeKeeps(c: Config, n: Node, choice: Serv, crt: nat)
    requires c.Valid() && n.queue.serv.Invalid? && !choice.Invalid?
    requires choice.High? ==> n.queue.high != []
    requires choice.Low? ==> n.queue.low != []
    requires Serving(n) && Drains(c, n) && Sizes(c, n.queue) && Logs(c, n)
    ensures var n' := Serve(c, n, choice, crt); Serving(n') && Drains(c, n') && Sizes(c, n'.queue) && Logs(c, n')
  {
    hide SourceIsPendingRel, DrainTime, Bytes, Ids, Fifo;
    DrainTimePositive(c, if choice.High? then n.queue.high[0] else n.queue.low[0]);
  }

  lemma ServeDecisions(c: Config, n: Node, choice: Serv, crt: nat)
    requires Decisions(n) && n.queue.serv.Invalid? && !choice.Invalid? && crt <= RATIO_HIGH
    requires choice.High? ==> n.queue.high != []
    requires choice.Low? ==> n.queue.low != []
    requires RoundRobin(RATIO_HIGH, Decision(n.queue.low != [], n.queue.high != [], choice, crt), n.queue.crt)
    ensures Decisions(Serve(c, n, choice, crt))
  {
    hide RoundRobin, SourceIsPendingRel, DrainTime, StillWaiting;
    DecisionAdded(RATIO_HIGH, n.history.decisions, Decision(n.queue.low != [], n.queue.high != [], choice, crt));
  }

  lemma CounterBound(c: Config, n: Node)
    requires Core(c, n)
    ensures n.queue.crt <= RATIO_HIGH
  {
  }

  lemma BeginServiceCore(c: Config, n: Node)
    requires c.Valid() && Core(c, n) && n.queue.serv.Invalid?
    requires n.queue.high != [] || n.queue.low != []
    ensures Core(c, BeginService(c, n)) && !BeginService(c, n).queue.serv.Invalid?
  {
    hide Serve, Clock, TimersMatch, Serving, Drains, Sizes, Logs, Core, Decisions;
    var q := n.queue;
    assert q.crt <= RATIO_HIGH by { CounterBound(c, n); }
    if q.high != [] && q.low != [] {
      var crt := Successor(RATIO_HIGH, q.crt);
      ServeCore(c, n, if crt < RATIO_HIGH then High else Low, crt);
    } else {
      ServeCore(c, n, if q.high != [] then High else Low, q.crt);
    }
  }

  // ---------------------------------------------------------------- departure

  lemma FifoSend(accepted: seq<Packet>, sent: seq<Packet>, held: seq<Packet>, p: Packet)
    requires Fifo(accepted, sent, held) && held != [] && SentAs(p, held[0])
    ensures Fifo(accepted, sent + [p], held[1..])
  {
    hide SentAs;
    assert accepted[|sent|..][0] == accepted[|sent|];
    assert accepted[|sent|..][1..] == accepted[|sent|+1..];
  }

  lemma FifoAccept(accepted: seq<Packet>, sent: seq<Packet>, held: seq<Packet>, p: Packet)
    requires Fifo(accepted, sent, held)
    ensures Fifo(accepted + [p], sent, held + [p])
  {
    hide SentAs;
  }

  /** The timer of the service that is ending has been taken off the event list. */
  ghost predicate ServiceDue(c: Config, n: Node) {
    && Clock(c, n) && Mine(n.events.pending, c.source) == DrainTimer(c, n)
    && Serving(n) && !n.queue.serv.Invalid? && n.history.begun[|n.history.completed|].at == Now(n)
    && Drains(c, n) && Sizes(c, n.queue) && Logs(c, n) && Decisions(n)
  }

  lemma DepartLowCore(c: Config, n: Node, realDraw: nat, draw: nat)
    requires c.Valid() && ServiceDue(c, n) && n.queue.serv.Low?
    ensures Core(c, DepartLow(c, n, realDraw, draw)) && DepartLow(c, n, realDraw, draw).queue.serv.Invalid?
  {
    hide DecideEcn, Logs, Sizes, Mine, E.Inv, RoundRobin, AddPhantom, KMin, KMax, Mark;
    DepartLowSizes(c, n, realDraw, draw);
  }

  lemma DepartLowSizes(c: Config, n: Node, realDraw: nat, draw: nat)
    requires c.Valid() && n.queue.low != [] && Sizes(c, n.queue) && Logs(c, n)
    ensures var n' := DepartLow(c, n, realDraw, draw); Sizes(c, n'.queue) && Logs(c, n')
  {
    hide DecideEcn, Fifo, KMin, KMax;
    var n' := DepartLow(c, n, realDraw, draw);
    FifoSend(n.history.acceptedLow, n.history.sentLow, n.queue.low, n'.history.sentLow[|n.history.sentLow|]);
  }

  lemma DepartHighCore(c: Config, n: Node, realDraw: nat, draw: nat)
    requires c.Valid() && ServiceDue(c, n) && n.queue.serv.High?
    ensures Core(c, DepartHigh(c, n, realDraw, draw)) && DepartHigh(c, n, realDraw, draw).queue.serv.Invalid?
  {
    hide DecideEcn, Logs, Sizes, Mine, E.Inv, RoundRobin, AddPhantom, KMin, KMax, Mark;
    DepartHighSizes(c, n, realDraw, draw);
  }

  lemma DepartHighSizes(c: Config, n: Node, realDraw: nat, draw: nat)
    requires c.Valid() && n.queue.high != [] && Sizes(c, n.queue) && Logs(c, n)
    ensures var n' := DepartHigh(c, n, realDraw, draw); Sizes(c, n'.queue) && Logs(c, n')
  {
    hide DecideEcn, Fifo, KMin, KMax;
    var n' := DepartHigh(c, n, realDraw, draw);
    FifoSend(n.history.acceptedHigh, n.history.sentHigh, n.queue.high, n'.history.sentHigh[|n.history.sentHigh|]);
  }

  /** The timer of the drain that happens now has been taken off the event list, or draining starts. */
  ghost predicate DrainDue(c: Config, n: Node) {
    var h := n.history;
    && E.Inv(n.events) && n.events.endTime == 0
    && Draining(c, n) && Mine(n.events.pending, c.source) == ServiceTimer(n)
    && h.drainsSet == h.drained && (h.drained != [] ==> h.drained[|h.drained| - 1] == Now(n))
    && (forall i :: 0 < i < |h.drainsSet| ==> h.drainsSet[i] == h.drainsSet[i-1] + c.drain)
    && Serving(n) && Sizes(c, n.queue) && Logs(c, n) && Decisions(n)
  }

  lemma DecreasePhantomCore(c: Config, n: Node)
    requires c.Valid() && DrainDue(c, n)
    ensures Core(c, DecreasePhantom(c, n))
  {
    hide Mine, E.Inv, SourceIsPendingRel, Sizes, Logs, Decisions;
    ScheduleRel(c, n.events, c.drain);
    DrainKeeps(c, n);
  }

  lemma DrainKeeps(c: Config, n: Node)
    requires Sizes(c, n.queue) && Logs(c, n) && Decisions(n)
    ensures var n' := DecreasePhantom(c, n); Sizes(c, n'.queue) && Logs(c, n') && Decisions(n')
  {
    hide Fifo, Lossless, RoundRobin, Bytes, SourceIsPendingRel, StillWaiting;
    var n' := DecreasePhantom(c, n);
    assert Lossless(c, n'.history) by { LosslessKept(c, n.history, n'.history); }
  }

  lemma LosslessKept(c: Config, h: History, h': History)
    requires Lossless(c, h) && h'.dropped == h.dropped
    ensures Lossless(c, h')
  {
  }

  lemma StartDrainingCore(c: Config, n: Node)
    requires c.Valid() && Core(c, n)
    ensures Core(c, StartDraining(c, n))
  {
    hide Core, DrainDue, DecreasePhantom;
    if n.queue.firstTime && c.usePhantom {
      FirstDrainDue(c, n);
      DecreasePhantomCore(c, n.(queue := n.queue.(firstTime := false)));
    }
  }

  lemma FirstDrainDue(c: Config, n: Node)
    requires Core(c, n) && n.queue.firstTime && c.usePhantom
    ensures DrainDue(c, n.(queue := n.queue.(firstTime := false)))
  {
    hide Sizes, Logs, Decisions, E.Inv, Mine;
    var n' := n.(queue := n.queue.(firstTime := false));
    assert Sizes(c, n'.queue) by { SizesKept(c, n, n'); }
    assert Logs(c, n') && Decisions(n') by { LogsKept(c, n, n'); }
    assert DrainTimer(c, n) == multiset{};
  }

  lemma SizesKept(c: Config, n: Node, n': Node)
    requires Sizes(c, n.queue) && n'.queue == n.queue.(firstTime := n'.queue.firstTime)
    ensures Sizes(c, n'.queue)
  {
    hide Bytes;
  }

  lemma LogsKept(c: Config, n: Node, n': Node)
    requires Logs(c, n) && Decisions(n) && n'.queue == n.queue.(firstTime := n'.queue.firstTime) && n'.history == n.history
    ensures Logs(c, n') && Decisions(n')
  {
    hide Fifo, RoundRobin;
  }

  lemma CompleteServiceInv(c: Config, n: Node, realDraw: nat, draw: nat)
    requires c.Valid() && ServiceDue(c, n)
    ensures CompleteService(c, n, realDraw, draw).Some?
    ensures var n' := CompleteService(c, n, realDraw, draw).value; Core(c, n') && BusyIffWaiting(n'.queue)
  {
    hide Core, Clock, Drains, Sizes, Logs, Decisions, DepartLow, DepartHigh, BeginService, DecreasePhantom, Mine, DrainTimer;
    var n1;
    if n.queue.serv.Low? {
      DepartLowCore(c, n, realDraw, draw);
      n1 := DepartLow(c, n, realDraw, draw);
    } else {
      DepartHighCore(c, n, realDraw, draw);
      n1 := DepartHigh(c, n, realDraw, draw);
    }
    if n1.queue.high != [] || n1.queue.low != [] {
      BeginServiceCore(c, n1);
    }
    var n2 := NextService(c, n1);
    StartDrainingCore(c, n2);
    BusyAfterDraining(c, n2);
  }

  lemma BusyAfterDraining(c: Config, n: Node)
    requires Core(c, n) && (n.queue.serv.Invalid? ==> n.queue.low == [] && n.queue.high == [])
    ensures BusyIffWaiting(StartDraining(c, n).queue)
  {
    hide Clock, TimersMatch, Drains, Sizes, Logs, Decisions;
  }

  lemma CompleteServiceKeepsArrivals(c: Config, n: Node, realDraw: nat, draw: nat)
    requires c.Valid() && EveryArrivalOnce(n.history) && CompleteService(c, n, realDraw, draw).Some?
    ensures EveryArrivalOnce(CompleteService(c, n, realDraw, draw).value.history)
  {
    hide Ids, DecideEcn, SourceIsPendingRel, DrainTime, Mark, KMin, KMax, AddPhantom;
  }

  // ---------------------------------------------------------------- dispatch

  /** The node after the earliest event is taken off the list. */
  function Popped(n: Node): Node
    requires n.events.pending != []
  {
    n.(events := n.events.(pending := n.events.pending[1..], lastTime := n.events.pending[0].time))
  }

  lemma PopTimers(c: Config, n: Node)
    requires c.Valid() && Inv(c, n) && n.events.triggers == [] && n.events.pending != []
    ensures var e, n1 := n.events.pending[0], Popped(n);
      && E.DoNextEvent(n.events) == Some((n1.events, E.Fired(e)))
      && E.Inv(n1.events) && n1.events.endTime == 0
      && (forall x :: x in Mine(n1.events.pending, c.source) ==> x >= Now(n1))
      && Mine(n.events.pending, c.source) == Mine(n1.events.pending, c.source) + (if e.source == c.source then multiset{e.time} else multiset{})
  {
    hide TimersMatch, Serving, Drains, Sizes, Logs, Decisions, BusyIffWaiting, EveryArrivalOnce;
    E.DispatchNeverFails(n.events);
    E.DispatchInv(n.events);
    MineAtLeast(n.events.pending[1..], c.source, n.events.pending[0].time);
  }

  /** Most of the invariant looks neither at the event list nor at the drains that happened. */
  lemma QueueOnly(c: Config, n: Node, n': Node)
    requires Inv(c, n) && n'.queue == n.queue && n'.history == n.history.(drained := n'.history.drained)
    ensures Serving(n') && Sizes(c, n'.queue) && Logs(c, n') && Decisions(n')
    ensures BusyIffWaiting(n'.queue) && EveryArrivalOnce(n'.history)
  {
    hide Sizes, BusyIffWaiting, Fifo, RoundRobin, Ids, Clock, TimersMatch, Drains;
  }

  /** The drain that happens now, entered in the history. */
  function Drained(n: Node): Node {
    n.(history := n.history.(drained := n.history.drained + [Now(n)]))
  }

  /** The next event of this queue's own source is the drain that is due or the end of the current service,
      as the time comparison says, and never both or neither. */
  lemma DispatchIsSound(c: Config, n: Node)
    requires c.Valid() && Inv(c, n) && n.events.triggers == [] && n.events.pending != []
    requires n.events.pending[0].source == c.source
    ensures if Now(Popped(n)) == n.queue.drainNext && c.usePhantom then DrainDue(c, Drained(Popped(n)))
            else ServiceDue(c, Popped(n))
  {
    hide Inv, DrainDue, ServiceDue;
    if Now(Popped(n)) == n.queue.drainNext && c.usePhantom {
      DrainIsDue(c, n);
    } else {
      ServiceIsDue(c, n);
    }
  }

  lemma DrainIsDue(c: Config, n: Node)
    requires c.Valid() && Inv(c, n) && n.events.triggers == [] && n.events.pending != []
    requires n.events.pending[0].source == c.source
    requires n.events.pending[0].time == n.queue.drainNext && c.usePhantom
    ensures DrainDue(c, Drained(Popped(n)))
  {
    hide Sizes, Logs, Decisions, BusyIffWaiting, EveryArrivalOnce, E.Inv, Mine;
    PopTimers(c, n);
    QueueOnly(c, n, Drained(Popped(n)));
    assert n.queue.drainNext in ServiceTimer(n) + DrainTimer(c, n);
    assert Draining(c, n);
    DropOne(Mine(Popped(n).events.pending, c.source), ServiceTimer(n), n.queue.drainNext);
  }

  lemma ServiceIsDue(c: Config, n: Node)
    requires c.Valid() && Inv(c, n) && n.events.triggers == [] && n.events.pending != []
    requires n.events.pending[0].source == c.source
    requires !(n.events.pending[0].time == n.queue.drainNext && c.usePhantom)
    ensures ServiceDue(c, Popped(n))
  {
    hide Sizes, Logs, Decisions, BusyIffWaiting, EveryArrivalOnce, E.Inv, Mine;
    PopTimers(c, n);
    QueueOnly(c, n, Popped(n));
    var t := n.events.pending[0].time;
    assert t in ServiceTimer(n) + DrainTimer(c, n);
    assert ServiceTimer(n) == multiset{t};
    DropOne(Mine(Popped(n).events.pending, c.source), DrainTimer(c, n), t);
    assert Draining(c, n) ==> n.queue.drainNext in DrainTimer(c, n);
  }

  lemma DropOne(a: multiset<nat>, b: multiset<nat>, t: nat)
    requires a + multiset{t} == b + multiset{t}
    ensures a == b
  {
    assert a == (a + multiset{t}) - multiset{t};
    assert b == (b + multiset{t}) - multiset{t};
  }

  lemma RunNextInv(c: Config, n: Node, realDraw: nat, draw: nat)
    requires c.Valid() && Inv(c, n)
    ensures RunNext(c, n, realDraw, draw).Some? && Inv(c, RunNext(c, n, realDraw, draw).value)
  {
    hide Inv, DoNextEvent;
    if n.events.triggers == [] && n.events.pending != [] {
      PopTimers(c, n);
      if n.events.pending[0].source == c.source {
        OwnEventInv(c, n, realDraw, draw);
      } else {
        OtherEventInv(c, n);
      }
    } else {
      NoEventInv(c, n);
    }
  }

  lemma NoEventInv(c: Config, n: Node)
    requires Inv(c, n) && (n.events.triggers != [] || n.events.pending == [])
    ensures E.DoNextEvent(n.events).Some? && !E.DoNextEvent(n.events).value.1.Fired?
    ensures Inv(c, n.(events := E.DoNextEvent(n.events).value.0))
  {
    hide Mine, Sizes, Logs, Decisions, BusyIffWaiting, EveryArrivalOnce, Serving;
    E.DispatchInv(n.events);
    QueueOnly(c, n, n.(events := E.DoNextEvent(n.events).value.0));
  }

  lemma OtherEventInv(c: Config, n: Node)
    requires c.Valid() && Inv(c, n) && n.events.triggers == [] && n.events.pending != []
    requires n.events.pending[0].source != c.source
    ensures Inv(c, Popped(n))
  {
    hide Mine, Sizes, Logs, Decisions, BusyIffWaiting, EveryArrivalOnce, Serving, E.Inv;
    PopTimers(c, n);
    QueueOnly(c, n, Popped(n));
    var mine := Mine(Popped(n).events.pending, c.source);
    assert mine == ServiceTimer(n) + DrainTimer(c, n);
    assert Draining(c, n) ==> n.queue.drainNext in mine;
    assert Clock(c, Popped(n));
    assert Drains(c, Popped(n));
    assert TimersMatch(c, Popped(n));
  }

  lemma OwnEventInv(c: Config, n: Node, realDraw: nat, draw: nat)
    requires c.Valid() && Inv(c, n) && n.events.triggers == [] && n.events.pending != []
    requires n.events.pending[0].source == c.source
    ensures var r := DoNextEvent(c, Popped(n), realDraw, draw); r.Some? && Inv(c, r.value)
  {
    hide Core, CompleteService, DecreasePhantom, E.Inv, ServiceDue, DrainDue, EveryArrivalOnce, BusyIffWaiting;
    DispatchIsSound(c, n);
    if Now(Popped(n)) == n.queue.drainNext && c.usePhantom {
      DecreasePhantomCore(c, Drained(Popped(n)));
      DecreaseKeeps(c, n, Drained(Popped(n)));
    } else {
      CompleteServiceInv(c, Popped(n), realDraw, draw);
      CompleteServiceKeepsArrivals(c, Popped(n), realDraw, draw);
    }
  }

  lemma DecreaseKeeps(c: Config, n: Node, n2: Node)
    requires Inv(c, n) && n2.queue == n.queue && n2.history == n.history.(drained := n2.history.drained)
    ensures BusyIffWaiting(DecreasePhantom(c, n2).queue) && EveryArrivalOnce(DecreasePhantom(c, n2).history)
  {
    hide Core, Ids, SourceIsPendingRel;
  }

  // ---------------------------------------------------------------- arrival

  lemma {:induction false} BytesAppend(s: seq<Packet>, p: Packet)
    ensures Bytes(s + [p]) == Bytes(s) + p.size
    decreases |s|
  {
    if s == [] {
    } else {
      assert (s + [p])[1..] == s[1..] + [p];
      BytesAppend(s[1..], p);
    }
  }

  lemma {:induction false} IdsAppend(s: seq<Packet>, p: Packet)
    ensures Ids(s + [p]) == Ids(s) + multiset{p.id}
    decreases |s|
  {
    if s == [] {
    } else {
      assert (s + [p])[1..] == s[1..] + [p];
      IdsAppend(s[1..], p);
    }
  }

  /** What holds whether or not the node is between services, when packets may have been added. */
  ghost predicate Ready(c: Config, n: Node) {
    Core(c, n) && BusyIffWaiting(n.queue)
  }

  /** An arrival only extends the rings, their sizes, the phantom queue, and the record of arrivals. */
  ghost predicate Extends(n: Node, n': Node) {
    && n'.events == n.events
    && n.queue.low <= n'.queue.low && n.queue.high <= n'.queue.high
    && n'.queue == n.queue.(low := n'.queue.low, high := n'.queue.high, sizeLow := n'.queue.sizeLow,
                            sizeHigh := n'.queue.sizeHigh, phantom := n'.queue.phantom)
    && n'.history == n.history.(arrived := n'.history.arrived, acceptedLow := n'.history.acceptedLow,
                                acceptedHigh := n'.history.acceptedHigh, bounced := n'.history.bounced,
                                dropped := n'.history.dropped)
  }

  lemma ExtendsTimers(c: Config, n: Node, n': Node)
    requires Extends(n, n') && Clock(c, n) && TimersMatch(c, n) && Drains(c, n)
    ensures Clock(c, n') && TimersMatch(c, n') && Drains(c, n')
  {
    hide E.Inv, Mine;
  }

  lemma ExtendsServing(c: Config, n: Node, n': Node)
    requires Extends(n, n') && Serving(n) && Decisions(n)
    ensures Serving(n') && Decisions(n')
  {
    hide RoundRobin;
  }

  /** What is left to show of an arrival. */
  lemma ExtendsCore(c: Config, n: Node, n': Node)
    requires Core(c, n) && Extends(n, n') && Sizes(c, n'.queue) && Logs(c, n')
    ensures Core(c, n')
  {
    hide Clock, TimersMatch, Serving, Drains, Sizes, Logs, Decisions, Extends;
    ExtendsTimers(c, n, n');
    ExtendsServing(c, n, n');
  }

  lemma ServeIfIdleReady(c: Config, n: Node)
    requires c.Valid() && Core(c, n) && (n.queue.high != [] || n.queue.low != [])
    ensures Ready(c, ServeIfIdle(c, n))
  {
    hide Core, BeginService;
    if n.queue.serv.Invalid? {
      BeginServiceCore(c, n);
      BusyWhenServing(c, BeginService(c, n));
    } else {
      BusyWhenServing(c, n);
    }
  }

  lemma BusyWhenServing(c: Config, n: Node)
    requires Core(c, n) && !n.queue.serv.Invalid?
    ensures BusyIffWaiting(n.queue)
  {
    hide Clock, TimersMatch, Drains, Sizes, Logs, Decisions;
  }

  lemma ReceiveLowReady(c: Config, n: Node, p: Packet)
    requires c.Valid() && Ready(c, n) && !p.header && p.size > 0 && n.queue.sizeLow + p.size <= c.maxSize
    ensures Ready(c, ReceiveLow(c, n, p))
  {
    hide Core, ServeIfIdle, Sizes, Logs, AddPhantom;
    var q, h := n.queue, n.history;
    var n1 := n.(queue := q.(low := q.low + [p], sizeLow := q.sizeLow + p.size,
                             phantom := if !c.inSeries then AddPhantom(c, q.phantom, p.size) else q.phantom),
                 history := h.(acceptedLow := h.acceptedLow + [p]));
    AcceptLowLogs(c, n, p, n1);
    ExtendsCore(c, n, n1);
    ServeIfIdleReady(c, n1);
  }

  lemma AcceptLowLogs(c: Config, n: Node, p: Packet, n1: Node)
    requires Core(c, n) && !p.header && p.size > 0 && n.queue.sizeLow + p.size <= c.maxSize
    requires n1.queue == n.queue.(low := n.queue.low + [p], sizeLow := n.queue.sizeLow + p.size,
                         phantom := if !c.inSeries then AddPhantom(c, n.queue.phantom, p.size) else n.queue.phantom)
    requires n1.history == n.history.(acceptedLow := n.history.acceptedLow + [p])
    ensures Sizes(c, n1.queue) && Logs(c, n1)
  {
    hide Clock, TimersMatch, Serving, Drains, Decisions, Fifo, Bytes;
    BytesAppend(n.queue.low, p);
    FifoAccept(n.history.acceptedLow, n.history.sentLow, n.queue.low, p);
  }

  lemma AcceptHighLogs(c: Config, n: Node, p: Packet, n1: Node)
    requires Core(c, n) && p.header && p.size > 0 && n.queue.sizeHigh + p.size <= 2000 * c.maxSize
    requires n1.queue == n.queue.(high := n.queue.high + [p], sizeHigh := n.queue.sizeHigh + p.size)
    requires n1.history == n.history.(acceptedHigh := n.history.acceptedHigh + [p])
    ensures Sizes(c, n1.queue) && Logs(c, n1)
  {
    hide Clock, TimersMatch, Serving, Drains, Decisions, Fifo, Bytes;
    BytesAppend(n.queue.high, p);
    FifoAccept(n.history.acceptedHigh, n.history.sentHigh, n.queue.high, p);
  }

  lemma ReceiveHighReady(c: Config, n: Node, p: Packet)
    requires c.Valid() && Ready(c, n) && p.header && p.size > 0
    ensures Ready(c, ReceiveHigh(c, n, p))
  {
    hide Core, ServeIfIdle, Sizes, Logs;
    var q, h := n.queue, n.history;
    if q.sizeHigh + p.size > 2000 * c.maxSize {
      RecordReady(c, n, n.(history := h.(bounced := h.bounced + [p.(bounced := true, header := true)])));
      RecordReady(c, n, n.(history := h.(dropped := h.dropped + [p])));
    } else {
      var n1 := n.(queue := q.(high := q.high + [p], sizeHigh := q.sizeHigh + p.size),
                   history := h.(acceptedHigh := h.acceptedHigh + [p]));
      AcceptHighLogs(c, n, p, n1);
      ExtendsCore(c, n, n1);
      ServeIfIdleReady(c, n1);
    }
  }

  /** An arrival that leaves the rings alone. */
  lemma RecordReady(c: Config, n: Node, n1: Node)
    requires Ready(c, n) && n1.events == n.events && n1.queue == n.queue.(phantom := n1.queue.phantom)
    requires 0 <= n1.queue.phantom <= c.phantomSize
      || n1.queue.phantom == n.queue.phantom
    requires n1.history == n.history.(arrived := n1.history.arrived, bounced := n1.history.bounced, dropped := n1.history.dropped)
    requires n1.history.dropped == n.history.dropped ||
      (exists p: Packet :: n1.history.dropped == n.history.dropped + [p] && (p.header || c.dropWhenFull))
    ensures Ready(c, n1)
  {
    assert Sizes(c, n1.queue) && Logs(c, n1) by {
      hide Clock, TimersMatch, Serving, Drains, Decisions, Fifo, Bytes;
    }
    hide Core;
    ExtendsCore(c, n, n1);
  }

  lemma ReceiveReady(c: Config, n: Node, p: Packet)
    requires c.Valid() && Ready(c, n) && p.size > 0
    ensures Ready(c, Receive(c, n, p))
  {
    hide Ready, ReceiveLow, ReceiveHigh;
    var phantom := if !c.inSeries then AddPhantom(c, n.queue.phantom, PHANTOM_PACKET) else n.queue.phantom;
    PhantomBounds(c, n);
    if p.header {
      ReceiveHighReady(c, n, p);
    } else if n.queue.sizeLow + p.size <= c.maxSize {
      ReceiveLowReady(c, n, p);
    } else {
      var full := n.(queue := n.queue.(phantom := phantom));
      RecordReady(c, n, full);
      if c.dropWhenFull {
        RecordReady(c, full, full.(history := full.history.(dropped := full.history.dropped + [p])));
      } else {
        ReceiveHighReady(c, full, Strip(c, p));
      }
    }
  }

  lemma PhantomBounds(c: Config, n: Node)
    requires Ready(c, n)
    ensures 0 <= n.queue.phantom <= c.phantomSize
  {
  }

  lemma ReceiveKeepsArrivals(c: Config, n: Node, p: Packet)
    requires EveryArrivalOnce(n.history)
    ensures EveryArrivalOnce(ReceivePacket(c, n, p).history)
  {
    hide EveryArrivalOnce, BeginService, AddPhantom;
    var n1 := n.(history := n.history.(arrived := n.history.arrived + [p]));
    if p.header {
      HeaderArrivesOnce(c, n, n1, p, p);
    } else if n.queue.sizeLow + p.size <= c.maxSize {
      LowArrivesOnce(c, n, n1, p);
    } else {
      var phantom := if !c.inSeries then AddPhantom(c, n.queue.phantom, PHANTOM_PACKET) else n.queue.phantom;
      var full := n1.(queue := n1.queue.(phantom := phantom));
      if c.dropWhenFull {
        DroppedOnce(n.history, p);
      } else {
        HeaderArrivesOnce(c, n, full, p, Strip(c, p));
      }
    }
  }

  /** Beginning a service records no arrival. */
  lemma ServingArrivals(c: Config, n: Node)
    requires EveryArrivalOnce(n.history) && (n.queue.high != [] || n.queue.low != [])
    ensures EveryArrivalOnce(ServeIfIdle(c, n).history)
  {
    hide Ids, SourceIsPendingRel, DrainTime;
  }

  lemma DroppedOnce(h: History, p: Packet)
    requires EveryArrivalOnce(h)
    ensures EveryArrivalOnce(h.(arrived := h.arrived + [p], dropped := h.dropped + [p]))
  {
    hide Ids;
    IdsAppend(h.arrived, p);
    IdsAppend(h.dropped, p);
  }

  lemma LowArrivesOnce(c: Config, n: Node, n1: Node, p: Packet)
    requires EveryArrivalOnce(n.history) && n1.history == n.history.(arrived := n.history.arrived + [p])
    ensures EveryArrivalOnce(ReceiveLow(c, n1, p).history)
  {
    hide Ids, ServeIfIdle, AddPhantom;
    var q, h := n1.queue, n1.history;
    IdsAppend(n.history.arrived, p);
    IdsAppend(h.acceptedLow, p);
    ServingArrivals(c, n1.(queue := q.(low := q.low + [p], sizeLow := q.sizeLow + p.size,
                                       phantom := if !c.inSeries then AddPhantom(c, q.phantom, p.size) else q.phantom),
                           history := h.(acceptedLow := h.acceptedLow + [p])));
  }

  /** `p` arrives and goes on as the header `header` of the same packet. */
  lemma HeaderArrivesOnce(c: Config, n: Node, n1: Node, p: Packet, header: Packet)
    requires EveryArrivalOnce(n.history) && n1.history == n.history.(arrived := n.history.arrived + [p])
    requires header.id == p.id
    ensures EveryArrivalOnce(ReceiveHigh(c, n1, header).history)
  {
    hide Ids, ServeIfIdle;
    var q, h, bounced := n1.queue, n1.history, header.(bounced := true, header := true);
    IdsAppend(n.history.arrived, p);
    IdsAppend(h.bounced, bounced);
    IdsAppend(h.dropped, header);
    IdsAppend(h.acceptedHigh, header);
    if q.sizeHigh + header.size <= 2000 * c.maxSize {
      ServingArrivals(c, n1.(queue := q.(high := q.high + [header], sizeHigh := q.sizeHigh + header.size),
                             history := h.(acceptedHigh := h.acceptedHigh + [header])));
    }
  }

  lemma ArrivedOnly(c: Config, n: Node, p: Packet)
    requires Inv(c, n)
    ensures Ready(c, n.(history := n.history.(arrived := n.history.arrived + [p])))
  {
    hide Core, BusyIffWaiting;
    RecordReady(c, n, n.(history := n.history.(arrived := n.history.arrived + [p])));
  }

  // ---------------------------------------------------------------- every step

  lemma OtherInv(c: Config, n: Node, op: E.Op)
    requires c.Valid() && Inv(c, n) && ValidStep(c, Step.Other(op)) && E.Apply(n.events, op).Some?
    ensures Inv(c, n.(events := E.Apply(n.events, op).value))
  {
    hide Mine, Sizes, Logs, Decisions, BusyIffWaiting, EveryArrivalOnce, Serving, E.Inv, E.Apply;
    E.ApplyInv(n.events, op);
    QueueOnly(c, n, n.(events := E.Apply(n.events, op).value));
    OthersKeepMine(c, n.events, op);
  }

  lemma OthersKeepMine(c: Config, events: E.State, op: E.Op)
    requires ValidStep(c, Step.Other(op)) && E.Apply(events, op).Some?
    ensures var events' := E.Apply(events, op).value;
      && Mine(events'.pending, c.source) == Mine(events.pending, c.source)
      && events'.endTime == events.endTime && events'.lastTime == events.lastTime
  {
    hide Mine;
    match op
    case Schedule(source, when) =>
      MineInsert(events.pending, E.Event(when, source, events.nextStamp), c.source);
    case Cancel(source) => MineRemove(events.pending, source, c.source);
    case Trigger(_) =>
  }

  /** Every step keeps the invariant, and no assertion fails but the one against scheduling in the past. */
  lemma StepInv(c: Config, n: Node, s: Step)
    requires c.Valid() && Inv(c, n) && ValidStep(c, s)
    ensures Apply(c, n, s).None? <==> s.Other? && s.op.Schedule? && s.op.when < Now(n)
    ensures Apply(c, n, s).Some? ==> Inv(c, Apply(c, n, s).value)
  {
    hide Inv, Ready, RunNext, Receive, EveryArrivalOnce;
    match s
    case Arrive(p) =>
      assert EveryArrivalOnce(n.history) by { ArrivalsOf(c, n); }
      ReceiveKeepsArrivals(c, n, p);
      ArrivedOnly(c, n, p);
      ReceiveReady(c, n.(history := n.history.(arrived := n.history.arrived + [p])), p);
      ReadyAndArrived(c, ReceivePacket(c, n, p));
    case Tick(realDraw, draw) => RunNextInv(c, n, realDraw, draw);
    case Other(op) =>
      if E.Apply(n.events, op).Some? {
        OtherInv(c, n, op);
      }
  }

  lemma ArrivalsOf(c: Config, n: Node)
    requires Inv(c, n)
    ensures EveryArrivalOnce(n.history)
  {
  }

  lemma ReadyAndArrived(c: Config, n: Node)
    requires Ready(c, n) && EveryArrivalOnce(n.history)
    ensures Inv(c, n)
  {
  }

  function Run(c: Config, n: Node, steps: seq<Step>): Option<Node>
    requires c.Valid()
    decreases |steps|
  {
    if steps == [] then Some(n)
    else if Apply(c, n, steps[0]).None? then None
    else Run(c, Apply(c, n, steps[0]).value, steps[1..])
  }

  /** A node that some run of the queue, started empty on an event list of others' events, leads to. */
  ghost predicate Reachable(c: Config, n: Node) {
    && c.Valid()
    && exists events, steps | StartsIn(c, events) && ValidSteps(c, steps) ::
         Run(c, Node(InitQueue(c), events, NoHistory()), steps) == Some(n)
  }

  ghost predicate StartsIn(c: Config, events: E.State) {
    E.Inv(events) && events.endTime == 0 && forall e :: e in events.pending ==> e.source != c.source
  }

  ghost predicate ValidSteps(c: Config, steps: seq<Step>) {
    forall i :: 0 <= i < |steps| ==> ValidStep(c, steps[i])
  }

  lemma {:induction false} RunInv(c: Config, n: Node, steps: seq<Step>)
    requires c.Valid() && Inv(c, n) && ValidSteps(c, steps)
    ensures Run(c, n, steps).Some? ==> Inv(c, Run(c, n, steps).value)
    decreases |steps|
  {
    hide Inv, Apply;
    if steps == [] {
    } else {
      assert ValidStep(c, steps[0]);
      StepInv(c, n, steps[0]);
      if Apply(c, n, steps[0]).Some? {
        RunInv(c, Apply(c, n, steps[0]).value, steps[1..]);
      }
    }
  }

  lemma {:induction false} NoneMine(p: seq<E.Event>, source: nat)
    requires forall e :: e in p ==> e.source != source
    ensures Mine(p, source) == multiset{}
  {
    if p == [] {
    } else {
      NoneMine(p[1..], source);
    }
  }

  lemma ReachableInv(c: Config, n: Node)
    requires Reachable(c, n)
    ensures c.Valid() && Inv(c, n)
  {
    hide Inv, Run;
    var events, steps :| StartsIn(c, events) && ValidSteps(c, steps) &&
      Run(c, Node(InitQueue(c), events, NoHistory()), steps) == Some(n);
    NoneMine(events.pending, c.source);
    InitInv(c, events);
    RunInv(c, Node(InitQueue(c), events, NoHistory()), steps);
  }
}
