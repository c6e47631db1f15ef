/** The simulator's event list: a multimap from time to source whose equal keys keep insertion order. */
module EventLists {
  import opened Basics

  /** A pending event. `stamp` numbers the insertions; the source keeps it only implicitly, as the order of equal keys. */
  datatype Event = Event(time: nat, source: nat, stamp: nat)

  datatype State = State(pending: seq<Event>, triggers: seq<nat>, lastTime: nat, endTime: nat, nextStamp: nat)

  function InitState(endTime: nat): State { State([], [], 0, endTime, 0) }

  /** Inserts behind all events that are not later. */
  function Insert(p: seq<Event>, e: Event): seq<Event> {
    if p == [] || p[0].time > e.time then [e] + p else [p[0]] + Insert(p[1..], e)
  }

  /** `None` is the failed assertion that the time has not passed. An event at or after the end time is ignored. */
  function SourceIsPending(s: State, source: nat, when: nat): Option<State> {
    if when < s.lastTime then None
    else if s.endTime == 0 || when < s.endTime then
      Some(s.(pending := Insert(s.pending, Event(when, source, s.nextStamp)), nextStamp := s.nextStamp + 1))
    else Some(s)
  }

  function RemoveFirst(p: seq<Event>, source: nat): seq<Event> {
    if p == [] then []
    else if p[0].source == source then p[1..]
    else [p[0]] + RemoveFirst(p[1..], source)
  }

  function CancelPendingSource(s: State, source: nat): State {
    s.(pending := RemoveFirst(s.pending, source))
  }

  function ReschedulePendingSource(s: State, source: nat, when: nat): Option<State> {
    SourceIsPending(CancelPendingSource(s, source), source, when)
  }

  datatype Dispatched = Nothing | Activated(target: nat) | Fired(event: Event)

  /** Triggers go first and take no time; then the earliest event, which moves the clock. `None` is the
      failed assertion that time does not go back. */
  function DoNextEvent(s: State): Option<(State, Dispatched)> {
    if s.triggers != [] then
      var n := |s.triggers| - 1;
      Some((s.(triggers := s.triggers[..n]), Activated(s.triggers[n])))
    else if s.pending == [] then Some((s, Nothing))
    else
      var e := s.pending[0];
      if e.time < s.lastTime then None
      else Some((s.(pending := s.pending[1..], lastTime := e.time), Fired(e)))
  }

  function TriggerIsPending(s: State, target: nat): State {
    s.(triggers := s.triggers + [target])
  }

  // ---------------------------------------------------------------- order

  /** Earlier in time, or inserted first at the same time. */
  predicate Before(a: Event, b: Event) {
    a.time < b.time || (a.time == b.time && a.stamp < b.stamp)
  }

  ghost predicate Ordered(p: seq<Event>) {
    forall i, j :: 0 <= i < j < |p| ==> Before(p[i], p[j])
  }

  ghost predicate Inv(s: State) {
    && Ordered(s.pending)
    && (forall e :: e in s.pending ==> e.time >= s.lastTime && e.stamp < s.nextStamp)
  }

  lemma {:induction false} InsertOrdered(p: seq<Event>, e: Event)
    requires Ordered(p) && forall x :: x in p ==> x.stamp < e.stamp
    ensures Ordered(Insert(p, e))
    ensures multiset(Insert(p, e)) == multiset(p) + multiset{e}
    ensures forall x :: x in Insert(p, e) <==> x == e || x in p
    decreases |p|
  {
    if p != [] && p[0].time <= e.time {
      assert p == [p[0]] + p[1..];
      InsertOrdered(p[1..], e);
      FirstThenOrdered(p[0], Insert(p[1..], e));
    } else {
      assert p != [] ==> Before(e, p[0]);
    }
  }

  lemma FirstThenOrdered(first: Event, p: seq<Event>)
    requires Ordered(p) && forall x :: x in p ==> Before(first, x)
    ensures Ordered([first] + p)
  {
    hide Before;
  }

  datatype Op = Schedule(source: nat, when: nat) | Trigger(target: nat) | Dispatch | Cancel(source: nat)

  function Apply(s: State, op: Op): Option<State> {
    match op
    case Schedule(source, when) => SourceIsPending(s, source, when)
    case Trigger(target) => Some(TriggerIsPending(s, target))
    case Dispatch => if DoNextEvent(s).Some? then Some(DoNextEvent(s).value.0) else None
    case Cancel(source) => Some(CancelPendingSource(s, source))
  }

  /** The events an operation fires (at most one), accepts, and cancels. */
  function FiredBy(s: State, op: Op): seq<Event> {
    if op.Dispatch? && DoNextEvent(s).Some? && DoNextEvent(s).value.1.Fired? then [DoNextEvent(s).value.1.event] else []
  }

  function AcceptedBy(s: State, op: Op): seq<Event> {
    if op.Schedule? && op.when >= s.lastTime && (s.endTime == 0 || op.when < s.endTime)
    then [Event(op.when, op.source, s.nextStamp)] else []
  }

  function CancelledBy(s: State, op: Op): seq<Event> {
    if op.Cancel? then FirstOf(s.pending, op.source) else []
  }

  function FirstOf(p: seq<Event>, source: nat): seq<Event> {
    if p == [] then [] else if p[0].source == source then [p[0]] else FirstOf(p[1..], source)
  }

  lemma DispatchNeverFails(s: State)
    requires Inv(s)
    ensures DoNextEvent(s).Some?
  {
    assert s.pending != [] ==> s.pending[0] in s.pending;
  }

  lemma {:induction false} FirstIndex(p: seq<Event>, source: nat) returns (i: nat)
    ensures i <= |p| && (i < |p| ==> p[i].source == source) && forall j :: 0 <= j < i ==> p[j].source != source
    ensures RemoveFirst(p, source) == if i < |p| then p[..i] + p[i+1..] else p
    ensures FirstOf(p, source) == if i < |p| then [p[i]] else []
    decreases |p|
  {
    if p == [] || p[0].source == source {
      i := 0;
    } else {
      var j := FirstIndex(p[1..], source);
      i := j + 1;
      assert i < |p| ==> p[..i] + p[i+1..] == [p[0]] + (p[1..][..j] + p[1..][j+1..]);
    }
  }

  /** Cancelling removes exactly the earliest pending event of the source, if there is one, and keeps the order of the rest. */
  lemma CancelRemovesEarliest(p: seq<Event>, source: nat) returns (i: nat)
    requires Ordered(p)
    ensures i <= |p| && (i < |p| <==> exists e :: e in p && e.source == source)
    ensures i < |p| ==> p[i].source == source && forall e :: e in p && e.source == source ==> e == p[i] || Before(p[i], e)
    ensures RemoveFirst(p, source) == if i < |p| then p[..i] + p[i+1..] else p
    ensures FirstOf(p, source) == if i < |p| then [p[i]] else []
  {
    hide Before, RemoveFirst, FirstOf;
    i := FirstIndex(p, source);
  }

  lemma ApplyInv(s: State, op: Op)
    requires Inv(s) && Apply(s, op).Some?
    ensures Inv(Apply(s, op).value) && Apply(s, op).value.lastTime >= s.lastTime
    ensures Accounts(s, op, Apply(s, op).value)
  {
    hide Inv, Accounts, SourceIsPending, CancelPendingSource, DoNextEvent, TriggerIsPending;
    match op
    case Schedule(source, when) => ScheduleInv(s, source, when);
    case Trigger(target) => TriggerInv(s, target);
    case Dispatch => DispatchInv(s);
    case Cancel(source) => CancelInv(s, source);
  }

  /** What was pending or is accepted now has fired, is cancelled, or is pending afterwards. */
  ghost predicate Accounts(s: State, op: Op, s': State) {
    multiset(s.pending) + multiset(AcceptedBy(s, op)) ==
      multiset(FiredBy(s, op)) + multiset(CancelledBy(s, op)) + multiset(s'.pending)
  }

  lemma ScheduleInv(s: State, source: nat, when: nat)
    requires Inv(s) && SourceIsPending(s, source, when).Some?
    ensures var s' := SourceIsPending(s, source, when).value;
      Inv(s') && s'.lastTime == s.lastTime && Accounts(s, Schedule(source, when), s')
  {
    hide Insert, Ordered;
    InsertOrdered(s.pending, Event(when, source, s.nextStamp));
  }

  lemma TriggerInv(s: State, target: nat)
    requires Inv(s)
    ensures var s' := TriggerIsPending(s, target);
      Inv(s') && s'.lastTime == s.lastTime && Accounts(s, Trigger(target), s')
  {
    hide Ordered;
  }

  lemma DispatchInv(s: State)
    requires Inv(s) && DoNextEvent(s).Some?
    ensures var s' := DoNextEvent(s).value.0;
      Inv(s') && s'.lastTime >= s.lastTime && Accounts(s, Dispatch, s')
  {
    hide Ordered;
    if s.triggers == [] && s.pending != [] {
      TailOrdered(s.pending);
    }
  }

  lemma TailOrdered(p: seq<Event>)
    requires Ordered(p) && p != []
    ensures Ordered(p[1..]) && multiset(p) == multiset{p[0]} + multiset(p[1..])
    ensures forall e :: e in p[1..] ==> e in p && e.time >= p[0].time
  {
    assert p == [p[0]] + p[1..];
    forall i | 0 <= i < |p[1..]| ensures p[1..][i].time >= p[0].time {
      assert Before(p[0], p[i+1]);
    }
  }

  lemma CancelInv(s: State, source: nat)
    requires Inv(s)
    ensures var s' := CancelPendingSource(s, source);
      Inv(s') && s'.lastTime == s.lastTime && Accounts(s, Cancel(source), s')
  {
    hide RemoveFirst, FirstOf, Ordered;
    var p := s.pending;
    var i := CancelRemovesEarliest(p, source);
    if i < |p| {
      WithoutIndex(p, i);
    }
  }

  lemma WithoutIndex(p: seq<Event>, i: nat)
    requires i < |p| && Ordered(p)
    ensures Ordered(p[..i] + p[i+1..])
    ensures multiset(p) == multiset{p[i]} + multiset(p[..i] + p[i+1..])
    ensures forall e :: e in p[..i] + p[i+1..] ==> e in p
  {
    hide Before;
    assert p == p[..i] + ([p[i]] + p[i+1..]);
  }

  /** `None`: an event was scheduled in the past. */
  function Run(s: State, ops: seq<Op>): Option<State>
    decreases |ops|
  {
    if ops == [] then Some(s)
    else if Apply(s, ops[0]).None? then None
    else Run(Apply(s, ops[0]).value, ops[1..])
  }

  function Trace(s: State, ops: seq<Op>): seq<Event>
    decreases |ops|
  {
    if ops == [] then []
    else FiredBy(s, ops[0]) + if Apply(s, ops[0]).Some? then Trace(Apply(s, ops[0]).value, ops[1..]) else []
  }

  function Accepted(s: State, ops: seq<Op>): seq<Event>
    decreases |ops|
  {
    if ops == [] then []
    else AcceptedBy(s, ops[0]) + if Apply(s, ops[0]).Some? then Accepted(Apply(s, ops[0]).value, ops[1..]) else []
  }

  function Cancelled(s: State, ops: seq<Op>): seq<Event>
    decreases |ops|
  {
    if ops == [] then []
    else CancelledBy(s, ops[0]) + if Apply(s, ops[0]).Some? then Cancelled(Apply(s, ops[0]).value, ops[1..]) else []
  }

  /** What fires from `s` on is either pending in `s` or scheduled later, so it comes after `last` if all that is pending does. */
  lemma {:induction false} TraceAfter(s: State, ops: seq<Op>, last: Event)
    requires Inv(s) && Run(s, ops).Some?
    requires forall e :: e in s.pending ==> Before(last, e)
    requires last.time <= s.lastTime && last.stamp < s.nextStamp
    ensures forall e :: e in Trace(s, ops) ==> Before(last, e)
    decreases |ops|
  {
    if ops == [] {
    } else {
      var s' := Apply(s, ops[0]).value;
      ApplyInv(s, ops[0]);
      forall e | e in s'.pending ensures Before(last, e) {
        PendingFrom(s, ops[0], e);
      }
      TraceAfter(s', ops[1..], last);
    }
  }

  /** Where a pending event comes from. */
  lemma PendingFrom(s: State, op: Op, e: Event)
    requires Inv(s) && Apply(s, op).Some? && e in Apply(s, op).value.pending
    ensures e in s.pending || e in AcceptedBy(s, op)
  {
    match op
    case Schedule(source, when) => InsertOrdered(s.pending, Event(when, source, s.nextStamp));
    case Trigger(_) =>
    case Dispatch =>
    case Cancel(source) =>
      var i := CancelRemovesEarliest(s.pending, source);
  }

  /** The event list is a stable sort: whatever is scheduled, cancelled and triggered on the way, events fire
      in order of time, equal times in order of insertion, the clock assertion never fails, and every
      accepted event has fired, been cancelled, or is still pending. */
  lemma {:induction false} FiresAsStableSort(s: State, ops: seq<Op>)
    requires Inv(s) && Run(s, ops).Some?
    ensures Ordered(Trace(s, ops))
    ensures Inv(Run(s, ops).value)
    ensures multiset(s.pending) + multiset(Accepted(s, ops)) ==
      multiset(Trace(s, ops)) + multiset(Cancelled(s, ops)) + multiset(Run(s, ops).value.pending)
    decreases |ops|
  {
    if ops == [] {
    } else {
      var op, s' := ops[0], Apply(s, ops[0]).value;
      ApplyInv(s, op);
      FiresAsStableSort(s', ops[1..]);
      var first := FiredBy(s, op);
      if first != [] {
        TailOrdered(s.pending);
        FiredIsFirst(s, op);
        TraceAfter(s', ops[1..], first[0]);
        FirstThenOrdered(first[0], Trace(s', ops[1..]));
      }
      hide Ordered;
      SumsChain(multiset(s.pending), AcceptedBy(s, op), Accepted(s', ops[1..]), first, Trace(s', ops[1..]),
        CancelledBy(s, op), Cancelled(s', ops[1..]), multiset(s'.pending), multiset(Run(s, ops).value.pending));
    }
  }

  /** The event fired comes before all that is pending afterwards. */
  lemma FiredIsFirst(s: State, op: Op)
    requires Inv(s) && Apply(s, op).Some? && FiredBy(s, op) != []
    ensures var e, s' := FiredBy(s, op)[0], Apply(s, op).value;
      && FiredBy(s, op) == [e] && e.time <= s'.lastTime && e.stamp < s'.nextStamp
      && forall x :: x in s'.pending ==> Before(e, x)
  {
    var p := s.pending;
    forall i | 0 <= i < |p[1..]| ensures Before(p[0], p[1..][i]) {
      assert Before(p[0], p[i+1]);
    }
    assert p[0] in p;
  }

  lemma SumsChain(p: multiset<Event>, a: seq<Event>, a': seq<Event>, f: seq<Event>, f': seq<Event>,
      c: seq<Event>, c': seq<Event>, p1: multiset<Event>, p2: multiset<Event>)
    requires p + multiset(a) == multiset(f) + multiset(c) + p1
    requires p1 + multiset(a') == multiset(f') + multiset(c') + p2
    ensures p + multiset(a + a') == multiset(f + f') + multiset(c + c') + p2
  {
    var A, A', F, F', C, C' := multiset(a), multiset(a'), multiset(f), multiset(f'), multiset(c), multiset(c');
    assert multiset(a + a') == A + A' && multiset(f + f') == F + F' && multiset(c + c') == C + C';
    assert p + (A + A') == (p + A) + A' == (F + C + p1) + A' == (F + C) + (p1 + A') == (F + C) + (F' + C' + p2);
    assert (F + C) + (F' + C' + p2) == (F + F') + (C + C') + p2;
  }

  // ---------------------------------------------------------------- triggers

  function ActivatedBy(s: State, op: Op): seq<nat> {
    if op.Dispatch? && DoNextEvent(s).Some? && DoNextEvent(s).value.1.Activated? then [DoNextEvent(s).value.1.target] else []
  }

  function Activations(s: State, ops: seq<Op>): seq<nat>
    decreases |ops|
  {
    if ops == [] then []
    else ActivatedBy(s, ops[0]) + if Apply(s, ops[0]).Some? then Activations(Apply(s, ops[0]).value, ops[1..]) else []
  }

  function AddedBy(op: Op): seq<nat> { if op.Trigger? then [op.target] else [] }

  /** The triggers that a run adds. */
  function Added(ops: seq<Op>): seq<nat> {
    if ops == [] then [] else AddedBy(ops[0]) + Added(ops[1..])
  }

  lemma TriggerStep(s: State, op: Op)
    requires Apply(s, op).Some?
    ensures multiset(s.triggers) + multiset(AddedBy(op)) == multiset(ActivatedBy(s, op)) + multiset(Apply(s, op).value.triggers)
  {
    hide Insert, RemoveFirst;
    if op.Dispatch? && s.triggers != [] {
      var n := |s.triggers| - 1;
      assert s.triggers == s.triggers[..n] + [s.triggers[n]];
    }
  }

  /** Activating takes no time and moves no event, and an event fires only when no trigger waits. */
  lemma TriggersGoFirst(s: State, op: Op)
    requires Apply(s, op).Some?
    ensures ActivatedBy(s, op) != [] ==>
      FiredBy(s, op) == [] && Apply(s, op).value.pending == s.pending && Apply(s, op).value.lastTime == s.lastTime
    ensures FiredBy(s, op) != [] ==> s.triggers == []
  {
    hide Insert, RemoveFirst;
  }

  /** Every trigger added is activated once or still waiting, in any run. */
  lemma {:induction false} EachTriggerActivatesOnce(s: State, ops: seq<Op>)
    requires Run(s, ops).Some?
    ensures multiset(s.triggers) + multiset(Added(ops)) == multiset(Activations(s, ops)) + multiset(Run(s, ops).value.triggers)
    decreases |ops|
  {
    hide Apply, ActivatedBy, AddedBy;
    if ops == [] {
    } else {
      var op, s' := ops[0], Apply(s, ops[0]).value;
      TriggerStep(s, op);
      EachTriggerActivatesOnce(s', ops[1..]);
      hide Added, Activations, Run;
      TriggersChain(multiset(s.triggers), AddedBy(op), Added(ops[1..]), ActivatedBy(s, op), Activations(s', ops[1..]),
        multiset(s'.triggers), multiset(Run(s', ops[1..]).value.triggers));
    }
  }

  lemma TriggersChain(t: multiset<nat>, a: seq<nat>, a': seq<nat>, f: seq<nat>, f': seq<nat>, t1: multiset<nat>, t2: multiset<nat>)
    requires t + multiset(a) == multiset(f) + t1 && t1 + multiset(a') == multiset(f') + t2
    ensures t + multiset(a + a') == multiset(f + f') + t2
  {
    var A, A', F, F' := multiset(a), multiset(a'), multiset(f), multiset(f');
    assert multiset(a + a') == A + A' && multiset(f + f') == F + F';
    assert t + (A + A') == (t + A) + A' == (F + t1) + A' == F + (t1 + A') == F + (F' + t2) == (F + F') + t2;
  }

  function Dispatches(n: nat): (ops: seq<Op>)
    ensures |ops| == n
  {
    if n == 0 then [] else [Dispatch] + Dispatches(n - 1)
  }

  function Newest(triggers: seq<nat>): seq<nat> {
    if triggers == [] then [] else [triggers[|triggers| - 1]] + Newest(triggers[..|triggers| - 1])
  }

  /** Left alone, the list activates its triggers, the newest first, then fires all its events in their order,
      and is empty. */
  lemma {:induction false} RunsDry(s: State)
    requires Inv(s)
    ensures var ops := Dispatches(|s.triggers| + |s.pending|);
      && Run(s, ops).Some? && Activations(s, ops) == Newest(s.triggers) && Trace(s, ops) == s.pending
      && Run(s, ops).value.triggers == [] && Run(s, ops).value.pending == []
    decreases |s.triggers| + |s.pending|
  {
    if s.triggers == [] && s.pending == [] {
    } else {
      var s', rest := NextTaken(s);
      assert Dispatches(|s.triggers| + |s.pending|)[1..] == rest;
      hide Inv, Apply, FiredBy, ActivatedBy;
      RunsDry(s');
    }
  }

  lemma NextTaken(s: State) returns (s': State, rest: seq<Op>)
    requires Inv(s) && (s.triggers != [] || s.pending != [])
    ensures Apply(s, Dispatch) == Some(s') && Inv(s') && rest == Dispatches(|s'.triggers| + |s'.pending|)
    ensures |s'.triggers| + |s'.pending| + 1 == |s.triggers| + |s.pending|
    ensures ActivatedBy(s, Dispatch) + Newest(s'.triggers) == Newest(s.triggers)
    ensures FiredBy(s, Dispatch) + s'.pending == s.pending
  {
    DispatchNeverFails(s);
    DispatchInv(s);
    s' := Apply(s, Dispatch).value;
    rest := Dispatches(|s'.triggers| + |s'.pending|);
  }

  ghost predicate SchedulesThePast(s: State, ops: seq<Op>, i: nat)
    requires i < |ops|
  {
    ops[i].Schedule? && Run(s, ops[..i]).Some? && ops[i].when < Run(s, ops[..i]).value.lastTime
  }

  /** Runs never stop on the clock assertion: only scheduling in the past can halt them. */
  lemma {:induction false} OnlyPastSchedulesHalt(s: State, ops: seq<Op>)
    requires Inv(s) && Run(s, ops).None?
    ensures exists i :: 0 <= i < |ops| && SchedulesThePast(s, ops, i)
    decreases |ops|
  {
    DispatchNeverFails(s);
    if Apply(s, ops[0]).None? {
      assert ops[..0] == [];
      assert SchedulesThePast(s, ops, 0);
    } else {
      var s' := Apply(s, ops[0]).value;
      ApplyInv(s, ops[0]);
      OnlyPastSchedulesHalt(s', ops[1..]);
      var j :| 0 <= j < |ops[1..]| && SchedulesThePast(s', ops[1..], j);
      assert ops[..j+1][0] == ops[0] && ops[..j+1][1..] == ops[1..][..j];
      assert Run(s, ops[..j+1]) == Run(s', ops[1..][..j]);
      assert SchedulesThePast(s, ops, j + 1);
    }
  }

  // ---------------------------------------------------------------- the object

  lemma {:induction false} RemoveFirstAt(p: seq<Event>, source: nat, i: nat)
    requires i <= |p| && forall j :: 0 <= j < i ==> p[j].source != source
    ensures RemoveFirst(p, source) == p[..i] + RemoveFirst(p[i..], source)
    decreases i
  {
    if i == 0 {
    } else {
      RemoveFirstAt(p[1..], source, i - 1);
      assert p[..i] == [p[0]] + p[1..][..i-1];
      assert p[1..][i-1..] == p[i..];
    }
  }

  /** The event list as an object. A result of `false` or `None` is a failed assertion. */
  class EventList {
    var pending: seq<Event>
    var triggers: seq<nat>
    var lastTime: nat
    var endTime: nat
    var nextStamp: nat

    function View(): State
      reads this
    {
      State(pending, triggers, lastTime, endTime, nextStamp)
    }

    constructor ()
      ensures View() == InitState(0)
    {
      pending, triggers, lastTime, endTime, nextStamp := [], [], 0, 0, 0;
    }

    method SetEndTime(when: nat)
      modifies this`endTime
      ensures View() == old(View()).(endTime := when)
    {
      endTime := when;
    }

    method Schedule(source: nat, when: nat) returns (ok: bool)
      modifies this
      ensures ok == SourceIsPending(old(View()), source, when).Some?
      ensures View() == if ok then SourceIsPending(old(View()), source, when).value else old(View())
    {
      ok := when >= lastTime;
      if ok && (endTime == 0 || when < endTime) {
        pending := Insert(pending, Event(when, source, nextStamp));
        nextStamp := nextStamp + 1;
      }
    }

    /** A time relative to now is never in the past. */
    method ScheduleRel(source: nat, fromNow: nat)
      modifies this
      ensures Some(View()) == SourceIsPending(old(View()), source, old(lastTime) + fromNow)
    {
      var _ := Schedule(source, lastTime + fromNow);
    }

    method CancelSource(source: nat)
      modifies this`pending
      ensures View() == CancelPendingSource(old(View()), source)
    {
      var i := 0;
      while i < |pending|
        invariant i <= |pending| && pending == old(pending)
        invariant forall j :: 0 <= j < i ==> pending[j].source != source
      {
        RemoveFirstAt(pending, source, i);
        if pending[i].source == source {
          pending := pending[..i] + pending[i+1..];
          return;
        }
        i := i + 1;
      }
      RemoveFirstAt(pending, source, i);
    }

    method Reschedule(source: nat, when: nat) returns (ok: bool)
      modifies this
      ensures ok == ReschedulePendingSource(old(View()), source, when).Some?
      ensures View() == if ok then ReschedulePendingSource(old(View()), source, when).value
                        else CancelPendingSource(old(View()), source)
    {
      CancelSource(source);
      ok := Schedule(source, when);
    }

    method AddTrigger(target: nat)
      modifies this`triggers
      ensures View() == TriggerIsPending(old(View()), target)
    {
      triggers := triggers + [target];
    }

    /** Takes what is next off the list; the caller runs the activated target or the fired source. */
    method TakeNext() returns (r: Option<Dispatched>)
      modifies this
      ensures r == if DoNextEvent(old(View())).Some? then Some(DoNextEvent(old(View())).value.1) else None
      ensures r.Some? ==> View() == DoNextEvent(old(View())).value.0
    {
      if triggers != [] {
        var target := triggers[|triggers| - 1];
        triggers := triggers[..|triggers| - 1];
        return Some(Activated(target));
      }
      if pending == [] {
        return Some(Nothing);
      }
      var next := pending[0];
      pending := pending[1..];
      if next.time < lastTime {
        return None;
      }
      lastTime := next.time;
      r := Some(Fired(next));
    }
  }
}
