/** What the composite queue promises in every run. */
module CompositeGuarantees {
  import opened Basics
  import opened WeightedRoundRobin
  import E = EventLists
  import opened Composite
  import opened CompositeRuns

  function CurrentService(n: Node): Option<Service> {
    if |n.history.begun| > |n.history.completed| then Some(n.history.begun[|n.history.completed|]) else None
  }

  /** `p` is what a completion now would send. */
  predicate AtHead(q: Queue, p: Packet) {
    (q.serv.Low? && q.low != [] && q.low[0] == p) || (q.serv.High? && q.high != [] && q.high[0] == p)
  }

  /** The queue's pending events are one service end while serving and one drain once draining has started;
      it serves as long as anything waits. */
  lemma TimersAreExact(c: Config, n: Node)
    requires Reachable(c, n)
    ensures Mine(n.events.pending, c.source) ==
      (if CurrentService(n).Some? then multiset{CurrentService(n).value.at} else multiset{}) +
      (if Draining(c, n) then multiset{n.queue.drainNext} else multiset{})
    ensures CurrentService(n).None? <==> n.queue.low == [] && n.queue.high == []
    ensures CurrentService(n).Some? ==> AtHead(n.queue, CurrentService(n).value.packet)
  {
    hide Reachable, Sizes, Logs, Decisions, E.Inv, Mine;
    ReachableInv(c, n);
  }

  /** When the queue's own event is next, comparing its time with the next drain tells what it was scheduled for:
      a drain that is due, or the end of the current service with its packet still at the head of its ring. */
  lemma DispatchByTimeIsSound(c: Config, n: Node)
    requires Reachable(c, n) && n.events.triggers == [] && n.events.pending != []
    requires n.events.pending[0].source == c.source
    ensures var t := n.events.pending[0].time;
      if t == n.queue.drainNext && c.usePhantom then Draining(c, n)
      else CurrentService(n).Some? && CurrentService(n).value.at == t && AtHead(n.queue, CurrentService(n).value.packet)
  {
    hide Reachable, Inv, Sizes, Logs, Decisions, Mine, TimersMatch, Clock, E.Inv;
    ReachableInv(c, n);
    DispatchIsSound(c, n);
  }

  /** No step fails an assertion of the queue or of the event list, unless someone else schedules in the past. */
  lemma NoAssertionFails(c: Config, n: Node, s: Step)
    requires Reachable(c, n) && ValidStep(c, s)
    ensures Apply(c, n, s).None? <==> s.Other? && s.op.Schedule? && s.op.when < Now(n)
  {
    hide Reachable, Inv, Apply;
    ReachableInv(c, n);
    StepInv(c, n, s);
  }

  /** Every service begun is completed once, in order, on the packet and at the time it was begun for, and at
      most one is under way; every drain set happens once, a draining time after the one before. */
  lemma EachTimerFiresOnce(c: Config, n: Node)
    requires Reachable(c, n)
    ensures n.history.completed <= n.history.begun
    ensures |n.history.begun| == |n.history.completed| + if n.queue.low == [] && n.queue.high == [] then 0 else 1
    ensures n.history.drained <= n.history.drainsSet
    ensures |n.history.drainsSet| == |n.history.drained| + if Draining(c, n) then 1 else 0
    ensures forall i :: 0 <= i < |n.history.drained| ==> n.history.drained[i] == n.history.drained[0] + i * c.drain
  {
    hide Reachable, Sizes, Logs, Decisions, Clock, TimersMatch;
    ReachableInv(c, n);
    var ds := n.history.drained;
    forall j | 0 < j < |ds| ensures ds[j] == ds[j-1] + c.drain {
      assert ds[j] == n.history.drainsSet[j] && ds[j-1] == n.history.drainsSet[j-1];
    }
    forall i | 0 <= i < |ds| ensures ds[i] == ds[0] + i * c.drain {
      Progression(ds, c.drain, i);
    }
  }

  lemma {:induction false} Progression(s: seq<nat>, step: nat, i: nat)
    requires i < |s| && forall j :: 0 < j < |s| ==> s[j] == s[j-1] + step
    ensures s[i] == s[0] + i * step
    decreases i
  {
    if i == 0 {
    } else {
      Progression(s, step, i - 1);
      assert i * step == (i - 1) * step + step;
    }
  }

  /** The byte counters are those of the rings and stay in their bounds, each class is first in first out,
      and every arrival is held, sent, bounced or dropped, exactly once; a whole data packet is dropped only
      when the queue is told to drop rather than trim. */
  lemma ConservesPackets(c: Config, n: Node)
    requires Reachable(c, n)
    ensures n.queue.sizeLow == Bytes(n.queue.low) <= c.maxSize
    ensures n.queue.sizeHigh == Bytes(n.queue.high) <= 2000 * c.maxSize
    ensures 0 <= n.queue.phantom <= c.phantomSize
    ensures Fifo(n.history.acceptedLow, n.history.sentLow, n.queue.low)
    ensures Fifo(n.history.acceptedHigh, n.history.sentHigh, n.queue.high)
    ensures Ids(n.history.arrived) == Ids(n.history.sentLow) + Ids(n.queue.low) + Ids(n.history.sentHigh) +
      Ids(n.queue.high) + Ids(n.history.bounced) + Ids(n.history.dropped)
    ensures !c.dropWhenFull ==> forall i :: 0 <= i < |n.history.dropped| ==> n.history.dropped[i].header
  {
    hide Reachable, Decisions, Clock, TimersMatch, Serving, Drains, Fifo, Bytes, Ids;
    ReachableInv(c, n);
    FifoIds(n.history.acceptedLow, n.history.sentLow, n.queue.low);
    FifoIds(n.history.acceptedHigh, n.history.sentHigh, n.queue.high);
  }

  lemma {:induction false} FifoIds(accepted: seq<Packet>, sent: seq<Packet>, held: seq<Packet>)
    requires Fifo(accepted, sent, held)
    ensures Ids(accepted) == Ids(sent) + Ids(held)
    decreases |sent|
  {
    if sent == [] {
      assert accepted == held;
    } else {
      assert accepted[1..][|sent[1..]|..] == accepted[|sent|..];
      assert SentAs(sent[0], accepted[0]);
      forall i | 0 <= i < |sent[1..]| ensures SentAs(sent[1..][i], accepted[1..][i]) {
        assert sent[1..][i] == sent[i+1] && accepted[1..][i] == accepted[i+1];
      }
      FifoIds(accepted[1..], sent[1..], held);
    }
  }

  // ---------------------------------------------------------------- weighted round robin

  /** Of any 21 consecutive contended decisions exactly one is for the low class. */
  lemma OneLowInTwentyOne(c: Config, n: Node, i: nat) returns (j: nat)
    requires Reachable(c, n) && i + 21 <= |ContendedOf(n.history.decisions)|
    ensures i <= j < i + 21
    ensures forall k :: i <= k < i + 21 ==>
      (ContendedOf(n.history.decisions)[k].choice == if k == j then Low else High)
  {
    hide Reachable, Clock, TimersMatch, Serving, Drains, Sizes, Logs, ContendedOf, RoundRobin;
    ReachableInv(c, n);
    j := OneLowInRound(RATIO_HIGH, n.history.decisions, i);
  }

  /** A step that leaves the queue serving the high class keeps a low packet waiting; the next decision sees it. */
  lemma WaitsForDecision(c: Config, n: Node, s: Step)
    requires c.Valid() && Inv(c, n) && ValidStep(c, s) && Apply(c, n, s).Some?
    requires n.queue.serv.High? && n.queue.low != []
    ensures var n' := Apply(c, n, s).value;
      || (n'.history.decisions == n.history.decisions && n'.queue.serv.High? && n'.queue.low != [])
      || (|n'.history.decisions| == |n.history.decisions| + 1 && n.history.decisions <= n'.history.decisions &&
          n'.history.decisions[|n.history.decisions|].lowWaiting)
  {
    hide Inv, DecideEcn, SourceIsPendingRel, DrainTime, E.DoNextEvent, E.Apply, KMin, KMax, AddPhantom, Mark;
  }

  lemma ServingExtends(c: Config, n: Node, realDraw: nat, draw: nat)
    requires c.Valid() && CompleteService(c, n, realDraw, draw).Some?
    ensures n.history.decisions <= CompleteService(c, n, realDraw, draw).value.history.decisions
  {
    hide DecideEcn, SourceIsPendingRel, DrainTime, KMin, KMax, AddPhantom, Mark;
  }

  lemma ReceivingExtends(c: Config, n: Node, p: Packet)
    ensures n.history.decisions <= ReceivePacket(c, n, p).history.decisions
  {
    hide SourceIsPendingRel, DrainTime, AddPhantom;
  }

  lemma DecisionsExtend(c: Config, n: Node, s: Step)
    requires c.Valid() && Apply(c, n, s).Some?
    ensures n.history.decisions <= Apply(c, n, s).value.history.decisions
  {
    hide CompleteService, ReceivePacket, SourceIsPendingRel, E.DoNextEvent, E.Apply;
    match s
    case Arrive(p) => ReceivingExtends(c, n, p);
    case Tick(realDraw, draw) =>
      var next := E.DoNextEvent(n.events).value.0;
      if CompleteService(c, n.(events := next), realDraw, draw).Some? {
        ServingExtends(c, n.(events := next), realDraw, draw);
      }
    case Other(_) =>
  }

  lemma {:induction false} RunDecisionsExtend(c: Config, n: Node, steps: seq<Step>)
    requires c.Valid() && Run(c, n, steps).Some?
    ensures n.history.decisions <= Run(c, n, steps).value.history.decisions
    decreases |steps|
  {
    hide Apply;
    if steps == [] {
    } else {
      DecisionsExtend(c, n, steps[0]);
      RunDecisionsExtend(c, Apply(c, n, steps[0]).value, steps[1..]);
    }
  }

  lemma {:induction false} NextDecisionSeesLow(c: Config, n: Node, steps: seq<Step>)
    requires c.Valid() && Inv(c, n) && ValidSteps(c, steps) && Run(c, n, steps).Some?
    requires n.queue.serv.High? && n.queue.low != []
    requires |Run(c, n, steps).value.history.decisions| > |n.history.decisions|
    ensures Run(c, n, steps).value.history.decisions[|n.history.decisions|].lowWaiting
    decreases |steps|
  {
    hide Inv, Apply;
    assert ValidStep(c, steps[0]);
    var n' := Apply(c, n, steps[0]).value;
    StepInv(c, n, steps[0]);
    WaitsForDecision(c, n, steps[0]);
    if n'.history.decisions == n.history.decisions {
      NextDecisionSeesLow(c, n', steps[1..]);
    } else {
      RunDecisionsExtend(c, n', steps[1..]);
    }
  }

  /** However a run goes on from a state with a low packet queued, one is in service already or chosen by one of
      the next 21 decisions. */
  lemma LowNeverStarves(c: Config, n: Node, steps: seq<Step>)
    requires c.Valid() && Inv(c, n) && ValidSteps(c, steps) && Run(c, n, steps).Some? && n.queue.low != []
    requires |Run(c, n, steps).value.history.decisions| >= |n.history.decisions| + 21
    ensures n.queue.serv.Low? ||
      LowChosen(Run(c, n, steps).value.history.decisions, |n.history.decisions|, |n.history.decisions| + 20)
  {
    hide Clock, TimersMatch, Serving, Drains, Sizes, Logs, Run;
    if n.queue.serv.High? {
      NextDecisionSeesLow(c, n, steps);
      RunInv(c, n, steps);
      LowWithinRound(RATIO_HIGH, Run(c, n, steps).value.history.decisions, |n.history.decisions|);
    }
  }

  // ---------------------------------------------------------------- marking

  lemma RampMonotone(size: int, more: int, min: int, max: int)
    requires size <= more && min < max
    ensures Ramp(size, min, max) <= Ramp(more, min, max)
  {
    DivideMonotone(RANDOM_RANGE * (size - min), RANDOM_RANGE * (more - min), max - min);
  }

  /** The same draws mark every packet in a longer queue that they mark in a shorter one. */
  lemma MarkingIsMonotone(c: Config, q: Queue, q': Queue, realDraw: nat, draw: nat)
    requires c.Valid() && q.sizeLow <= q'.sizeLow && q.phantom <= q'.phantom
    requires DecideEcn(c, q, realDraw, draw)
    ensures DecideEcn(c, q', realDraw, draw)
  {
    hide Ramp;
    var size, size' := if c.usePhantom then q.phantom else q.sizeLow, if c.usePhantom then q'.phantom else q'.sizeLow;
    if KMin(c) < KMax(c) {
      RampMonotone(size, size', KMin(c), KMax(c));
    }
    if c.useBoth && c.usePhantom {
      RampMonotone(q.sizeLow, q'.sizeLow, c.maxSize / 100 * 20, c.maxSize / 100 * 80);
    }
  }

  /** `draw` is among the part of all draws that `size` is of the way from `min` to `max`, rounded down to whole draws. */
  predicate InProportion(draw: nat, size: int, min: int, max: int) {
    (draw + 1) * (max - min) <= 0x7FFF_FFFF * (size - min)
  }

  lemma RampIsProportional(draw: nat, size: int, min: int, max: int)
    requires min < max
    ensures draw < Ramp(size, min, max) <==> InProportion(draw, size, min, max)
  {
    BelowQuotient(draw + 1, RANDOM_RANGE * (size - min), max - min);
  }

  /** A packet is marked always above the upper threshold of the queue that decides, never up to the lower one,
      and in proportion between them. With both queues the real queue marks as well, in proportion to its place
      between a fifth and four fifths of its size, but only while the phantom queue is above its own minimum. */
  lemma MarkingIsProportional(c: Config, q: Queue, realDraw: nat, draw: nat)
    requires c.Valid()
    ensures var size := if c.usePhantom then q.phantom else q.sizeLow;
      DecideEcn(c, q, realDraw, draw) <==>
        || size > KMax(c)
        || (size > KMin(c) &&
            (InProportion(draw, size, KMin(c), KMax(c)) ||
             (c.useBoth && c.usePhantom && q.sizeLow > c.maxSize / 100 * 20 &&
              InProportion(realDraw, q.sizeLow, c.maxSize / 100 * 20, c.maxSize / 100 * 80))))
  {
    hide Ramp, InProportion, KMin, KMax;
    var size := if c.usePhantom then q.phantom else q.sizeLow;
    if KMin(c) < KMax(c) {
      RampIsProportional(draw, size, KMin(c), KMax(c));
    }
    if c.useBoth && c.usePhantom {
      RampIsProportional(realDraw, q.sizeLow, c.maxSize / 100 * 20, c.maxSize / 100 * 80);
    }
  }

  /** The thresholds are the given percentages of the size of the queue that decides, leaving out what that
      has over a whole number of hundreds. */
  lemma ThresholdsArePercentages(c: Config)
    ensures var size := if c.usePhantom then c.phantomSize else c.maxSize;
      && 100 * KMin(c) == c.kMin * (size - size % 100)
      && 100 * KMax(c) == c.kMax * (size - size % 100)
  {
    var size: int := if c.usePhantom then c.phantomSize else c.maxSize;
    assert size - size % 100 == 100 * (size / 100);
    Percent(size / 100, c.kMin);
    Percent(size / 100, c.kMax);
  }

  lemma Percent(hundreds: int, k: int)
    ensures 100 * (hundreds * k) == k * (100 * hundreds)
  {
  }

  /** `k` drains in a row. */
  function DrainTimes(c: Config, n: Node, k: nat): Node
    decreases k
  {
    if k == 0 then n else DrainTimes(c, DecreasePhantom(c, n), k - 1)
  }

  /** Left alone, the phantom queue loses a packet's worth at each drain and then stays empty. */
  lemma {:induction false} PhantomDrains(c: Config, n: Node, k: nat)
    requires n.queue.phantom >= 0
    ensures DrainTimes(c, n, k).queue.phantom ==
      if n.queue.phantom <= k * 4160 then 0 else n.queue.phantom - k * 4160
    decreases k
  {
    hide SourceIsPendingRel;
    if k == 0 {
    } else {
      PhantomDrains(c, DecreasePhantom(c, n), k - 1);
    }
  }
}
