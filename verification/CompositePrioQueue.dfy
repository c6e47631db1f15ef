/** The path-length queue as an object, with its counts updated in place. */
module CompositePrioQueues {
  import opened Basics
  import opened WeightedRoundRobin
  import opened CompositePrio

  /** The search from the front of the list finds the first longer packet. */
  lemma {:induction false} FirstLongerFound(low: seq<Packet>, prio: nat, i: nat)
    requires i <= |low| && forall j :: 0 <= j < i ==> low[j].pathLen <= prio
    requires i < |low| ==> low[i].pathLen > prio
    ensures FirstLonger(low, prio) == i
    decreases i
  {
    if i == 0 {
    } else {
      FirstLongerFound(low[1..], prio, i - 1);
    }
  }

  lemma {:induction false} FindMaxSkips(lens: seq<nat>, from: nat, to: nat)
    requires to <= from < |lens| && forall j :: to < j <= from ==> lens[j] == 0
    ensures FindMax(lens, from) == FindMax(lens, to)
    decreases from
  {
    if to < from {
      FindMaxSkips(lens, from - 1, to);
    }
  }

  class CompositePrioQueue {
    const config: Config
    var low: seq<Packet>
    var high: seq<Packet>
    const lens: array<nat>
    var maxQueued: nat
    var maxSeen: nat
    var sizeLow: int
    var sizeHigh: int
    var serv: Serv
    var crt: nat
    ghost var arrived: multiset<nat>
    ghost var sent: multiset<nat>
    ghost var dropped: multiset<nat>
    ghost var decisions: seq<Decision>

    ghost predicate Valid() { lens.Length == MAX_PATH_LEN + 1 }

    ghost function View(): Queue
      reads this, lens
    {
      Queue(low, high, lens[..], maxQueued, maxSeen, sizeLow, sizeHigh, serv, crt, arrived, sent, dropped, decisions)
    }

    constructor (config: Config)
      ensures Valid() && this.config == config && View() == InitQueue() && fresh(lens)
    {
      this.config := config;
      low, high, maxQueued, maxSeen, sizeLow, sizeHigh, serv, crt := [], [], 0, 0, 0, 0, Invalid, 0;
      arrived, sent, dropped, decisions := multiset{}, multiset{}, multiset{}, [];
      lens := new nat[MAX_PATH_LEN + 1](i => 0);
    }

    /** Whether both assertions hold. */
    method CheckQueued() returns (ok: bool)
      requires Valid()
      ensures ok == CompositePrio.CheckQueued(View())
    {
      var maxPath, total := 0, 0;
      for i := 0 to MAX_PATH_LEN
        invariant total == Total(lens[..], i)
        invariant maxPath == if i == 0 then 0 else FindMax(lens[..], i - 1)
      {
        if lens[i] > 0 {
          maxPath := i;
          total := total + lens[i];
        }
      }
      return maxPath == maxQueued && total <= MAX_QUEUED;
    }

    /** Recomputes the cached maximum after the last packet of the longest path length is gone. */
    method FindMaxPathLenQueued()
      requires Valid() && maxSeen <= MAX_PATH_LEN
      modifies this`maxQueued
      ensures maxQueued == if low == [] then 0 else FindMax(lens[..], maxSeen)
    {
      maxQueued := 0;
      if low == [] {
        return;
      }
      var i := maxSeen;
      while lens[i] == 0 && i > 0
        invariant 0 <= i <= maxSeen && forall j :: i < j <= maxSeen ==> lens[j] == 0
      {
        i := i - 1;
      }
      FindMaxSkips(lens[..], maxSeen, i);
      if lens[i] > 0 {
        maxQueued := i;
      }
    }

    /** `ok`, here and below, is false when an assertion fails, an abort is reached or an index is out of range. */
    method EnqueuePacket(p: Packet) returns (ok: bool)
      requires Valid()
      modifies this`low, this`sizeLow, this`maxQueued, this`maxSeen, lens
      ensures ok == Enqueue(old(View()), p).Some? && (ok ==> View() == Enqueue(old(View()), p).value)
      ensures ok ==> low == [p] + old(low)
    {
      if p.pathLen >= lens.Length {
        return false;
      }
      low := [p] + low;
      sizeLow := sizeLow + p.size;
      if maxQueued < p.pathLen {
        maxQueued := p.pathLen;
        if maxSeen < maxQueued {
          maxSeen := maxQueued;
        }
      }
      lens[p.pathLen] := lens[p.pathLen] + 1;
      hide CompositePrio.CheckQueued;
      ok := CheckQueued();
    }

    /** Erases packet `i` of the low list and does the housekeeping. */
    method EraseLow(i: nat) returns (ok: bool)
      requires Valid() && i < |low|
      modifies this`low, this`sizeLow, this`maxQueued, lens
      ensures ok == Remove(old(View()), i).Some? && (ok ==> View() == Remove(old(View()), i).value)
    {
      var p := low[i];
      if p.pathLen >= lens.Length || lens[p.pathLen] == 0 || maxSeen >= lens.Length {
        return false;
      }
      low := low[..i] + low[i+1..];
      sizeLow := sizeLow - p.size;
      lens[p.pathLen] := lens[p.pathLen] - 1;
      if p.pathLen == maxQueued && lens[p.pathLen] == 0 {
        FindMaxPathLenQueued();
      }
      hide CompositePrio.CheckQueued, FindMax;
      ok := CheckQueued();
    }

    /** Queues a header if there is space for it. */
    method QueueHeader(p: Packet)
      modifies this`high, this`sizeHigh, this`dropped
      ensures View() == CompositePrio.QueueHeader(config, old(View()), p)
    {
      if sizeHigh + p.size > config.maxSize {
        dropped := dropped + multiset{p.id};
      } else {
        high := [p] + high;
        sizeHigh := sizeHigh + p.size;
      }
    }

    method TrimLowPriorityPacket(prio: nat) returns (ok: bool)
      requires Valid()
      modifies this`low, this`high, this`sizeLow, this`sizeHigh, this`maxQueued, this`dropped, lens
      ensures ok == Trim(config, old(View()), prio).Some? && (ok ==> View() == Trim(config, old(View()), prio).value)
    {
      hide Remove, CompositePrio.CheckQueued, CompositePrio.QueueHeader;
      if prio >= maxQueued {
        return false;
      }
      var i := 0;
      while i < |low| && low[i].pathLen <= prio
        invariant i <= |low| && forall j :: 0 <= j < i ==> low[j].pathLen <= prio
      {
        i := i + 1;
      }
      FirstLongerFound(low, prio, i);
      if i == |low| {
        return false;
      }
      var booted := low[i];
      ok := EraseLow(i);
      if ok {
        QueueHeader(Strip(config, booted));
        ok := CheckQueued();
      }
    }

    method BeginService()
      requires high != [] || low != []
      modifies this`serv, this`crt, this`decisions
      ensures View() == CompositePrio.BeginService(old(View()))
    {
      if high != [] && low != [] {
        crt := crt + 1;
        if crt >= RATIO_HIGH + RATIO_LOW {
          crt := 0;
        }
        serv := if crt < RATIO_HIGH then High else Low;
      } else if high != [] {
        serv := High;
      } else {
        serv := Low;
      }
      decisions := decisions + [Decision(low != [], high != [], serv, crt)];
    }

    method DequeueHighPacket() returns (ok: bool)
      requires Valid()
      modifies this`high, this`sizeHigh
      ensures ok == DequeueHigh(old(View())).Some? && (ok ==> View() == DequeueHigh(old(View())).value)
    {
      hide CompositePrio.CheckQueued;
      if high == [] {
        return false;
      }
      var p := high[|high| - 1];
      high := high[..|high| - 1];
      sizeHigh := sizeHigh - p.size;
      ok := CheckQueued();
    }

    method FinishService(p: Packet)
      modifies this`serv, this`crt, this`sent, this`decisions
      ensures View() == Finish(old(View()), p)
    {
      hide CompositePrio.BeginService;
      sent := sent + multiset{p.id};
      serv := Invalid;
      if high != [] || low != [] {
        BeginService();
      }
    }

    method CompleteService() returns (ok: bool)
      requires Valid()
      modifies this, lens
      ensures ok == CompositePrio.CompleteService(old(View())).Some?
      ensures ok ==> View() == CompositePrio.CompleteService(old(View())).value
    {
      hide Remove, Finish, CompositePrio.CheckQueued;
      match serv {
        case Invalid => return false;
        case Low =>
          if low == [] {
            return false;
          }
          var p := low[|low| - 1];
          ok := EraseLow(|low| - 1);
          if ok {
            FinishService(p);
          }
        case High =>
          if high == [] {
            return false;
          }
          var p := high[|high| - 1];
          ok := DequeueHighPacket();
          if ok {
            FinishService(p);
          }
      }
    }

    method ServeIfIdle()
      requires high != [] || low != []
      modifies this`serv, this`crt, this`decisions
      ensures View() == CompositePrio.ServeIfIdle(old(View()))
    {
      hide CompositePrio.BeginService;
      if serv.Invalid? {
        BeginService();
      }
    }

    method EnqueueAndServe(p: Packet) returns (ok: bool)
      requires Valid()
      modifies this, lens
      ensures ok == CompositePrio.EnqueueAndServe(old(View()), p).Some?
      ensures ok ==> View() == CompositePrio.EnqueueAndServe(old(View()), p).value
    {
      hide Enqueue, CompositePrio.ServeIfIdle;
      ok := EnqueuePacket(p);
      if ok {
        ServeIfIdle();
      }
    }

    method ReceiveHeader(p: Packet)
      modifies this
      ensures View() == CompositePrio.ReceiveHeader(config, old(View()), p)
    {
      hide CompositePrio.ServeIfIdle;
      var full := sizeHigh + p.size > config.maxSize;
      QueueHeader(p);
      if !full {
        ServeIfIdle();
      }
    }

    method ReceivePacket(p: Packet, coin: bool) returns (ok: bool)
      requires Valid()
      modifies this, lens
      ensures ok == Apply(config, old(View()), Arrive(p, coin)).Some?
      ensures ok ==> View() == Apply(config, old(View()), Arrive(p, coin)).value
    {
      hide Trim, CompositePrio.EnqueueAndServe, CompositePrio.ReceiveHeader;
      arrived := arrived + multiset{p.id};
      if p.header {
        ReceiveHeader(p);
        return true;
      }
      var room := sizeLow + p.size <= config.maxSize;
      if !room && low == [] {
        return false;
      }
      if !(room || (p.pathLen == low[0].pathLen && coin) || p.pathLen < maxQueued) {
        ReceiveHeader(Strip(config, p));
        return true;
      }
      if !room {
        if !(p.pathLen < maxQueued) && p.pathLen == 0 {
          return false;
        }
        ok := TrimLowPriorityPacket(if p.pathLen < maxQueued then p.pathLen else p.pathLen - 1);
        if !ok || sizeLow + p.size > config.maxSize {
          return false;
        }
      }
      ok := EnqueueAndServe(p);
    }
  }
}
