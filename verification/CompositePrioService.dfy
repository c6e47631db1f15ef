/** What the path-length queue serves: weighted round robin between its lists, each list from its oldest packet,
    and where every arrival goes. */
module CompositePrioService {
  import opened Basics
  import opened WeightedRoundRobin
  import opened CompositePrio

  // ---------------------------------------------------------------- weighted round robin

  /** Every decision so far kept to the round robin, the last one is what is served, and a low packet passed over
      by one decision was waiting at the next. */
  ghost predicate Log(q: Queue) {
    var ds := q.decisions;
    && q.crt == CrtBefore(ds, |ds|) && AllRoundRobin(RATIO_HIGH, ds)
    && (!q.serv.Invalid? ==> ds != [] && ds[|ds| - 1].choice == q.serv)
    && (forall i :: 0 < i < |ds| && StillWaiting(ds[i-1]) ==> ds[i].lowWaiting)
  }

  ghost predicate PassedOver(q: Queue) { q.decisions != [] && StillWaiting(q.decisions[|q.decisions| - 1]) }

  ghost predicate Decisions(q: Queue) { Log(q) && (PassedOver(q) ==> q.low != []) }

  predicate SameService(q: Queue, q': Queue) { q'.serv == q.serv && q'.crt == q.crt && q'.decisions == q.decisions }

  lemma ServeDecisions(q: Queue, choice: Serv, crt: nat)
    requires Decisions(q) && RoundRobin(RATIO_HIGH, Decision(q.low != [], q.high != [], choice, crt), q.crt)
    ensures Decisions(Serve(q, choice, crt))
  {
    hide RoundRobin, StillWaiting, CrtBefore;
    var ds, d := q.decisions, Decision(q.low != [], q.high != [], choice, crt);
    DecisionAdded(RATIO_HIGH, ds, d);
    assert (ds + [d])[|ds|] == d;
    assert Serve(q, choice, crt).decisions == ds + [d];
  }

  lemma BeginServiceDecisions(q: Queue)
    requires Decisions(q) && (q.high != [] || q.low != [])
    ensures Decisions(BeginService(q))
  {
    hide Decisions, Serve;
    if q.high != [] && q.low != [] {
      var crt := Successor(RATIO_HIGH, q.crt);
      ServeDecisions(q, if crt < RATIO_HIGH then High else Low, crt);
    } else {
      ServeDecisions(q, if q.high != [] then High else Low, q.crt);
    }
  }

  lemma ServeIfIdleDecisions(q: Queue)
    requires Decisions(q) && (q.high != [] || q.low != [])
    ensures Decisions(ServeIfIdle(q))
  {
    hide Decisions, BeginService;
    if q.serv.Invalid? {
      BeginServiceDecisions(q);
    }
  }

  lemma FinishDecisions(q: Queue, p: Packet)
    requires Decisions(q)
    ensures Decisions(Finish(q, p))
  {
    hide BeginService, AllRoundRobin, StillWaiting;
    if q.high != [] || q.low != [] {
      BeginServiceDecisions(q.(serv := Invalid, sent := q.sent + multiset{p.id}));
    }
  }

  lemma SameDecisions(q: Queue, q': Queue)
    requires Log(q) && SameService(q, q') && (PassedOver(q) ==> q'.low != [])
    ensures Decisions(q')
  {
    hide AllRoundRobin, StillWaiting;
  }

  lemma LowWasNotPassedOver(q: Queue)
    requires Log(q) && q.serv.Low?
    ensures !PassedOver(q)
  {
    hide AllRoundRobin;
  }

  lemma CompleteServiceDecisions(q: Queue)
    requires Decisions(q) && CompleteService(q).Some?
    ensures Decisions(CompleteService(q).value)
  {
    hide Log, PassedOver, Remove, DequeueHigh, Finish;
    if q.serv.Low? {
      var i := |q.low| - 1;
      RemoveFields(q, i);
      LowWasNotPassedOver(q);
      SameDecisions(q, Remove(q, i).value);
      FinishDecisions(Remove(q, i).value, q.low[i]);
    } else {
      DequeueHighFields(q);
      SameDecisions(q, DequeueHigh(q).value);
      FinishDecisions(DequeueHigh(q).value, q.high[|q.high| - 1]);
    }
  }

  lemma DequeueHighFields(q: Queue)
    requires DequeueHigh(q).Some?
    ensures var q', n := DequeueHigh(q).value, |q.high| - 1;
      n >= 0 && q' == q.(high := q.high[..n], sizeHigh := q.sizeHigh - q.high[n].size)
  {
    hide CheckQueued;
  }

  lemma EnqueueFields(q: Queue, p: Packet)
    requires Enqueue(q, p).Some?
    ensures var q' := Enqueue(q, p).value;
      q' == q.(low := [p] + q.low, sizeLow := q.sizeLow + p.size, lens := q'.lens, maxQueued := q'.maxQueued, maxSeen := q'.maxSeen)
  {
    hide CheckQueued;
  }

  lemma EnqueueAndServeDecisions(q: Queue, p: Packet)
    requires Log(q) && EnqueueAndServe(q, p).Some?
    ensures Decisions(EnqueueAndServe(q, p).value)
  {
    hide Log, PassedOver, Decisions, Enqueue, ServeIfIdle;
    EnqueueFields(q, p);
    SameDecisions(q, Enqueue(q, p).value);
    ServeIfIdleDecisions(Enqueue(q, p).value);
  }

  lemma ReceiveHeaderDecisions(c: Config, q: Queue, p: Packet)
    requires Decisions(q)
    ensures Decisions(ReceiveHeader(c, q, p))
  {
    hide Log, PassedOver, ServeIfIdle;
    var q' := QueueHeader(c, q, p);
    SameDecisions(q, q');
    if q.sizeHigh + p.size <= c.maxSize {
      ServeIfIdleDecisions(q');
    }
  }

  /** A trim takes the victim out of the low list and puts its header on the high list, if there is room. */
  lemma TrimFields(c: Config, q: Queue, prio: nat)
    requires Trim(c, q, prio).Some?
    ensures var i, r := FirstLonger(q.low, prio), Trim(c, q, prio).value;
      && i < |q.low| && SameService(q, r) && r.low == Without(q.low, i) && r.sent == q.sent
      && Headed(c, q, Strip(c, q.low[i]), r)
  {
    hide Remove, CheckQueued, FirstLonger, Without;
    RemoveFields(q, FirstLonger(q.low, prio));
  }

  /** The header is queued exactly if the high list has room for it, and dropped if not. */
  predicate Headed(c: Config, q: Queue, header: Packet, q': Queue) {
    if q.sizeHigh + header.size <= c.maxSize then q'.high == [header] + q.high && q'.dropped == q.dropped
    else q'.high == q.high && q'.dropped == q.dropped + multiset{header.id}
  }

  lemma ReceiveDecisions(c: Config, q: Queue, p: Packet, coin: bool)
    requires Decisions(q) && Receive(c, q, p, coin).Some?
    ensures Decisions(Receive(c, q, p, coin).value)
  {
    hide Log, PassedOver, EnqueueAndServe, Trim, ReceiveHeader, Headed;
    if p.header {
      ReceiveHeaderDecisions(c, q, p);
    } else if Fits(c, q, p) {
      EnqueueAndServeDecisions(q, p);
    } else if (p.pathLen == q.low[0].pathLen && coin) || p.pathLen < q.maxQueued {
      var prio := if p.pathLen < q.maxQueued then p.pathLen else p.pathLen - 1;
      TrimFields(c, q, prio);
      assert Log(Trim(c, q, prio).value) by { SameLog(q, Trim(c, q, prio).value); }
      EnqueueAndServeDecisions(Trim(c, q, prio).value, p);
    } else {
      ReceiveHeaderDecisions(c, q, Strip(c, p));
    }
  }

  lemma SameLog(q: Queue, q': Queue)
    requires Log(q) && SameService(q, q')
    ensures Log(q')
  {
    hide AllRoundRobin;
  }

  /** Every step that goes through keeps to the round robin. */
  lemma StepDecisions(c: Config, q: Queue, s: Step)
    requires Decisions(q) && Apply(c, q, s).Some?
    ensures Decisions(Apply(c, q, s).value)
  {
    hide Log, PassedOver, Receive, CompleteService;
    match s
    case Complete =>
      if !q.serv.Invalid? {
        CompleteServiceDecisions(q);
      }
    case Arrive(p, coin) =>
      var q1 := q.(arrived := q.arrived + multiset{p.id});
      SameDecisions(q, q1);
      ReceiveDecisions(c, q1, p, coin);
  }

  lemma {:induction false} RunDecisions(c: Config, q: Queue, steps: seq<Step>)
    requires Decisions(q) && Run(c, q, steps).Some?
    ensures Decisions(Run(c, q, steps).value)
    decreases |steps|
  {
    hide Decisions, Apply;
    if steps == [] {
    } else {
      StepDecisions(c, q, steps[0]);
      RunDecisions(c, Apply(c, q, steps[0]).value, steps[1..]);
    }
  }

  lemma RunFromStart(c: Config, steps: seq<Step>)
    requires Run(c, InitQueue(), steps).Some?
    ensures Decisions(Run(c, InitQueue(), steps).value)
  {
    hide Run, NoCounts;
    RunDecisions(c, InitQueue(), steps);
  }

  /** In every run, of any 11 consecutive decisions taken while both lists were waiting exactly one is for the low list. */
  lemma OneLowInEleven(c: Config, steps: seq<Step>, i: nat) returns (j: nat)
    requires Run(c, InitQueue(), steps).Some?
    requires i + 11 <= |ContendedOf(Run(c, InitQueue(), steps).value.decisions)|
    ensures i <= j < i + 11
    ensures forall k :: i <= k < i + 11 ==>
      (ContendedOf(Run(c, InitQueue(), steps).value.decisions)[k].choice == if k == j then Low else High)
  {
    hide Run, InitQueue, ContendedOf, AllRoundRobin;
    RunFromStart(c, steps);
    j := OneLowInRound(RATIO_HIGH, Run(c, InitQueue(), steps).value.decisions, i);
  }

  /** In every run a decision with one list waiting takes that list, and what is served is what was decided last. */
  lemma UncontendedTakesWaiting(c: Config, steps: seq<Step>, i: nat)
    requires Run(c, InitQueue(), steps).Some?
    ensures var q := Run(c, InitQueue(), steps).value;
      && (i < |q.decisions| && !Contended(q.decisions[i]) ==>
           if q.decisions[i].highWaiting then q.decisions[i].choice.High? else q.decisions[i].choice.Low? && q.decisions[i].lowWaiting)
      && (!q.serv.Invalid? ==> q.decisions != [] && q.decisions[|q.decisions| - 1].choice == q.serv)
  {
    hide Run, InitQueue;
    RunFromStart(c, steps);
    var q := Run(c, InitQueue(), steps).value;
    assert i < |q.decisions| ==> RoundRobin(RATIO_HIGH, q.decisions[i], CrtBefore(q.decisions, i));
  }

  // ---------------------------------------------------------------- waiting low packets

  ghost predicate WaitsOn(q: Queue, q': Queue) {
    || (q'.decisions == q.decisions && q'.serv.High? && q'.low != [])
    || (q.decisions < q'.decisions && q'.decisions[|q.decisions|].lowWaiting)
  }

  /** A step that leaves the queue serving headers keeps a low packet waiting; the next decision sees it. */
  lemma WaitsForDecision(c: Config, q: Queue, s: Step)
    requires Apply(c, q, s).Some? && q.serv.High? && q.low != []
    ensures WaitsOn(q, Apply(c, q, s).value)
  {
    hide Remove, Enqueue, DequeueHigh, Trim, Strip, Fits, Headed;
    match s
    case Complete => DequeueHighFields(q);
    case Arrive(p, coin) =>
      var q1 := q.(arrived := q.arrived + multiset{p.id});
      if !p.header && Fits(c, q1, p) {
        EnqueueFields(q1, p);
      } else if !p.header && ((p.pathLen == q.low[0].pathLen && coin) || p.pathLen < q.maxQueued) {
        var prio := if p.pathLen < q.maxQueued then p.pathLen else p.pathLen - 1;
        TrimFields(c, q1, prio);
        EnqueueFields(Trim(c, q1, prio).value, p);
      }
  }

  lemma FinishExtends(q: Queue, p: Packet)
    ensures q.decisions <= Finish(q, p).decisions
  {
  }

  lemma DecisionsExtend(c: Config, q: Queue, s: Step)
    requires Apply(c, q, s).Some?
    ensures q.decisions <= Apply(c, q, s).value.decisions
  {
    hide Remove, Enqueue, DequeueHigh, Finish, Trim, Strip, Fits, Headed;
    match s
    case Complete =>
      if q.serv.Low? {
        RemoveFields(q, |q.low| - 1);
        FinishExtends(Remove(q, |q.low| - 1).value, q.low[|q.low| - 1]);
      } else if q.serv.High? {
        DequeueHighFields(q);
        FinishExtends(DequeueHigh(q).value, q.high[|q.high| - 1]);
      }
    case Arrive(p, coin) =>
      var q1 := q.(arrived := q.arrived + multiset{p.id});
      if !p.header && Fits(c, q1, p) {
        EnqueueFields(q1, p);
      } else if !p.header && ((p.pathLen == q.low[0].pathLen && coin) || p.pathLen < q.maxQueued) {
        var prio := if p.pathLen < q.maxQueued then p.pathLen else p.pathLen - 1;
        TrimFields(c, q1, prio);
        EnqueueFields(Trim(c, q1, prio).value, p);
      }
  }

  lemma {:induction false} RunDecisionsExtend(c: Config, q: Queue, steps: seq<Step>)
    requires Run(c, q, steps).Some?
    ensures q.decisions <= Run(c, q, steps).value.decisions
    decreases |steps|
  {
    hide Apply;
    if steps == [] {
    } else {
      DecisionsExtend(c, q, steps[0]);
      RunDecisionsExtend(c, Apply(c, q, steps[0]).value, steps[1..]);
    }
  }

  lemma {:induction false} NextDecisionSeesLow(c: Config, q: Queue, steps: seq<Step>)
    requires Run(c, q, steps).Some? && q.serv.High? && q.low != []
    requires |Run(c, q, steps).value.decisions| > |q.decisions|
    ensures Run(c, q, steps).value.decisions[|q.decisions|].lowWaiting
    decreases |steps|
  {
    hide Apply;
    if steps == [] {
      assert false;
    } else {
      var q' := Apply(c, q, steps[0]).value;
      WaitsForDecision(c, q, steps[0]);
      if q'.decisions == q.decisions {
        NextDecisionSeesLow(c, q', steps[1..]);
      } else {
        RunDecisionsExtend(c, q', steps[1..]);
      }
    }
  }

  /** However a run goes on from a state with a low packet queued, one is in service already or chosen by one of
      the next 11 decisions. */
  lemma LowWithinEleven(c: Config, q: Queue, steps: seq<Step>)
    requires Inv(c, q) && Decisions(q) && Run(c, q, steps).Some? && q.low != []
    requires |Run(c, q, steps).value.decisions| >= |q.decisions| + 11
    ensures q.serv.Low? || LowChosen(Run(c, q, steps).value.decisions, |q.decisions|, |q.decisions| + 10)
  {
    hide Run, Books, Sizes, EveryArrivalOnce, AllRoundRobin, LowChosen;
    if q.serv.High? {
      NextDecisionSeesLow(c, q, steps);
      RunDecisions(c, q, steps);
      LowWithinRound(RATIO_HIGH, Run(c, q, steps).value.decisions, |q.decisions|);
    }
  }

  // ---------------------------------------------------------------- what a step does to the lists

  /** A completion sends the oldest packet of the list that was decided on, and nothing else moves. */
  lemma CompletionSendsOldest(c: Config, q: Queue)
    requires Apply(c, q, Complete).Some? && !q.serv.Invalid?
    ensures var q' := Apply(c, q, Complete).value;
      && q'.dropped == q.dropped && q'.arrived == q.arrived
      && if q.serv.Low? then
           var i := |q.low| - 1;
           i >= 0 && q'.low == q.low[..i] && q'.high == q.high && q'.sent == q.sent + multiset{q.low[i].id}
         else
           var i := |q.high| - 1;
           i >= 0 && q'.high == q.high[..i] && q'.low == q.low && q'.sent == q.sent + multiset{q.high[i].id}
  {
    hide Remove, DequeueHigh;
    if q.serv.Low? {
      RemoveFields(q, |q.low| - 1);
      assert Without(q.low, |q.low| - 1) == q.low[..|q.low| - 1];
    } else {
      DequeueHighFields(q);
    }
  }

  /** A header is queued or dropped by the room for it, and a data packet that fits is queued whole and displaces nothing. */
  lemma ArrivalWithRoom(c: Config, q: Queue, p: Packet, coin: bool)
    requires Inv(c, q) && Apply(c, q, Arrive(p, coin)).Some?
    requires p.header || |q.low| * c.packetSize + p.size <= c.maxSize
    ensures var q' := Apply(c, q, Arrive(p, coin)).value;
      && q'.sent == q.sent
      && if !p.header then q'.low == [p] + q.low && q'.high == q.high && q'.dropped == q.dropped
         else if Bytes(q.high) + p.size <= c.maxSize then
           q'.low == q.low && q'.high == [p] + q.high && q'.dropped == q.dropped
         else q'.low == q.low && q'.high == q.high && q'.dropped == q.dropped + multiset{p.id}
  {
    hide Books, EveryArrivalOnce, Busy, Enqueue, Trim, Bytes, Headed, Strip;
    var q1 := q.(arrived := q.arrived + multiset{p.id});
    if !p.header && Fits(c, q1, p) {
      EnqueueFields(q1, p);
    }
  }

  /** A data packet that does not fit turns either a displaced packet or itself into a header, which is queued
      exactly if there is room for it; nothing is sent. */
  lemma ArrivalWithoutRoom(c: Config, q: Queue, p: Packet, coin: bool) returns (i: nat)
    requires Apply(c, q, Arrive(p, coin)).Some? && !p.header && !Fits(c, q, p)
    ensures var q' := Apply(c, q, Arrive(p, coin)).value;
      && q'.sent == q.sent
      && if i < |q.low| then q'.low == [p] + Without(q.low, i) && Headed(c, q, Strip(c, q.low[i]), q')
         else q'.low == q.low && Headed(c, q, Strip(c, p), q')
  {
    hide Enqueue, Trim, Without, Strip, FirstLonger;
    var q1 := q.(arrived := q.arrived + multiset{p.id});
    if (p.pathLen == q.low[0].pathLen && coin) || p.pathLen < q.maxQueued {
      var prio := if p.pathLen < q.maxQueued then p.pathLen else p.pathLen - 1;
      i := FirstLonger(q.low, prio);
      TrimFields(c, q1, prio);
      EnqueueFields(Trim(c, q1, prio).value, p);
    } else {
      i := |q.low|;
    }
  }
}
