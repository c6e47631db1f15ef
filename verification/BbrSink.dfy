/** The BBR receiver: cumulative acknowledgement, sorted out-of-order list, NACKs for trimmed packets. */
module BbrSink {
  import opened BbrTypes

  datatype Sink = Sink(cumulativeAck: nat, received: seq<nat>)

  const EmptySink := Sink(0, [])

  predicate AlreadyReceived(k: Sink, seqno: nat) {
    seqno <= k.cumulativeAck || seqno in k.received
  }

  /** Pops the out-of-order packets that the cumulative acknowledgement has caught up with. */
  function Absorb(mss: nat, k: Sink): Sink
    decreases |k.received|
  {
    if k.received != [] && k.received[0] == k.cumulativeAck + 1
    then Absorb(mss, Sink(k.cumulativeAck + mss, k.received[1..]))
    else k
  }

  function Insert(r: seq<nat>, seqno: nat): seq<nat> {
    if r == [] || seqno < r[0] then [seqno] + r
    else if seqno == r[0] then r
    else [r[0]] + Insert(r[1..], seqno)
  }

  /** One packet arrives, whole or trimmed: the new state and the reply. */
  function Receive(mss: nat, k: Sink, seqno: nat, trimmed: bool): (Sink, Msg)
    requires mss > 0
  {
    if AlreadyReceived(k, seqno) then (k, Ack(1, k.cumulativeAck, seqno))
    else if trimmed then (k, Nack(seqno, seqno + mss - 1))
    else if seqno == k.cumulativeAck + 1 then
      var k' := Absorb(mss, k.(cumulativeAck := seqno + mss - 1));
      (k', Ack(1, k'.cumulativeAck, seqno))
    else (k.(received := Insert(k.received, seqno)), Ack(seqno, seqno + mss - 1, seqno))
  }

  ghost predicate Increasing(r: seq<nat>) {
    forall i, j :: 0 <= i < j < |r| ==> r[i] < r[j]
  }

  /** The sink `k` is the reassembly of exactly the whole packets in `got`. */
  ghost predicate Reassembles(mss: nat, k: Sink, got: set<nat>)
    requires mss > 0
  {
    && Aligned(mss, k.cumulativeAck)
    && Increasing(k.received)
    && (forall s :: s in k.received ==> s > k.cumulativeAck + 1 && s in got)
    && (forall s :: s in got ==> IsSeq(mss, s) && AlreadyReceived(k, s))
    && (forall s :: IsSeq(mss, s) && s <= k.cumulativeAck ==> s in got)
  }

  lemma {:induction false} InsertMembers(r: seq<nat>, seqno: nat)
    requires Increasing(r)
    ensures Increasing(Insert(r, seqno))
    ensures forall s :: s in Insert(r, seqno) <==> s == seqno || s in r
  {
    if r == [] || seqno < r[0] {
      assert forall s :: s in [seqno] + r <==> s == seqno || s in r;
    } else if seqno != r[0] {
      InsertMembers(r[1..], seqno);
      var t := Insert(r[1..], seqno);
      assert r == [r[0]] + r[1..];
      forall s ensures s in [r[0]] + t <==> s == seqno || s in r {
      }
      forall i | 0 <= i < |t| ensures r[0] < t[i] {
        assert t[i] in t;
      }
    }
  }

  lemma {:induction false} InsertAtFirstGreater(r: seq<nat>, seqno: nat, i: nat)
    requires i <= |r| && forall j :: 0 <= j < i ==> r[j] < seqno
    requires i < |r| ==> seqno < r[i]
    ensures Insert(r, seqno) == r[..i] + [seqno] + r[i..]
  {
    if i == 0 {
      assert r[..0] == [] && r[0..] == r;
    } else {
      var tail := r[1..];
      assert forall j :: 0 <= j < i - 1 ==> tail[j] == r[j+1];
      InsertAtFirstGreater(tail, seqno, i - 1);
      assert [r[0]] + tail[..i-1] == r[..i];
      assert tail[i-1..] == r[i..];
    }
  }

  lemma {:induction false} InsertPresent(r: seq<nat>, seqno: nat, i: nat)
    requires i < |r| && r[i] == seqno && forall j :: 0 <= j < i ==> r[j] < seqno
    ensures Insert(r, seqno) == r
  {
    if i == 0 {
    } else {
      var tail := r[1..];
      assert forall j :: 0 <= j < i - 1 ==> tail[j] == r[j+1];
      InsertPresent(tail, seqno, i - 1);
      assert [r[0]] + tail == r;
    }
  }

  /** What holds between popping two out-of-order packets. */
  ghost predicate Absorbing(mss: nat, k: Sink, got: set<nat>)
    requires mss > 0
  {
    && Aligned(mss, k.cumulativeAck)
    && Increasing(k.received)
    && (forall s :: s in k.received ==> s > k.cumulativeAck && s in got)
    && (forall s :: s in got ==> IsSeq(mss, s) && AlreadyReceived(k, s))
    && (forall s :: IsSeq(mss, s) && s <= k.cumulativeAck ==> s in got)
  }

  lemma {:induction false} AbsorbReassembles(mss: nat, k: Sink, got: set<nat>)
    requires mss > 0 && Absorbing(mss, k, got)
    ensures Reassembles(mss, Absorb(mss, k), got)
    ensures Absorb(mss, k).cumulativeAck >= k.cumulativeAck
    decreases |k.received|
  {
    if k.received != [] && k.received[0] == k.cumulativeAck + 1 {
      AbsorbOne(mss, k, got);
      AbsorbReassembles(mss, Sink(k.cumulativeAck + mss, k.received[1..]), got);
    } else {
      if k.received != [] {
        FirstOrLater(k.received);
        assert k.received[0] in k.received;
      }
    }
  }

  lemma FirstOrLater(r: seq<nat>)
    requires Increasing(r) && r != []
    ensures Increasing(r[1..]) && forall s :: s in r <==> s == r[0] || s in r[1..]
    ensures forall s :: s in r[1..] ==> s > r[0]
  {
    var t := r[1..];
    forall s | s in t ensures s in r && s > r[0] {
      var i :| 0 <= i < |t| && t[i] == s;
      assert r[i + 1] == s;
    }
    forall s | s in r ensures s == r[0] || s in t {
      var i :| 0 <= i < |r| && r[i] == s;
      assert i > 0 ==> t[i - 1] == s;
    }
  }

  /** Popping the packet that the cumulative acknowledgement has reached. */
  lemma AbsorbOne(mss: nat, k: Sink, got: set<nat>)
    requires mss > 0 && Absorbing(mss, k, got) && k.received != [] && k.received[0] == k.cumulativeAck + 1
    ensures Absorbing(mss, Sink(k.cumulativeAck + mss, k.received[1..]), got)
  {
    hide Increasing;
    var first, k' := k.received[0], Sink(k.cumulativeAck + mss, k.received[1..]);
    FirstOrLater(k.received);
    assert IsSeq(mss, first);
    forall s | s in k'.received ensures s > k'.cumulativeAck {
      SeqGap(mss, first, s);
    }
    forall s | IsSeq(mss, s) && s <= k'.cumulativeAck ensures s in got {
      if s > first {
        SeqGap(mss, first, s);
      }
    }
  }

  /** Main step: whatever arrives, the sink stays the reassembly of what arrived whole,
      its reply describes the new state, and the cumulative acknowledgement never goes back. */
  lemma ReceiveReassembles(mss: nat, k: Sink, got: set<nat>, seqno: nat, trimmed: bool)
    requires mss > 0 && IsSeq(mss, seqno) && Reassembles(mss, k, got)
    ensures var (k', reply) := Receive(mss, k, seqno, trimmed);
      && Reassembles(mss, k', if trimmed then got else got + {seqno})
      && k'.cumulativeAck >= k.cumulativeAck
      && (reply.Nack? <==> trimmed && seqno !in got)
      && (reply.Ack? && reply.seqno == 1 ==> reply.ackno == k'.cumulativeAck)
      && (reply.Ack? && reply.seqno != 1 ==>
            seqno == reply.seqno && seqno !in got && !trimmed && seqno > k'.cumulativeAck + 1)
  {
    var k' := Receive(mss, k, seqno, trimmed).0;
    if AlreadyReceived(k, seqno) {
      assert seqno in got;
      assert got + {seqno} == got;
    } else if !trimmed && seqno == k.cumulativeAck + 1 {
      var k0 := k.(cumulativeAck := seqno + mss - 1);
      forall s | s in k0.received ensures s > k0.cumulativeAck {
        SeqGap(mss, seqno, s);
      }
      forall s | IsSeq(mss, s) && s <= k0.cumulativeAck ensures s in got + {seqno} {
        if s > seqno {
          SeqGap(mss, seqno, s);
        }
      }
      AbsorbReassembles(mss, k0, got + {seqno});
    } else if !trimmed {
      InsertMembers(k.received, seqno);
    }
  }

  lemma RepliesWellFormed(mss: nat, k: Sink, seqno: nat, trimmed: bool)
    requires mss > 0
    ensures var reply := Receive(mss, k, seqno, trimmed).1;
      && (reply.Ack? || reply.Nack?)
      && (reply.Nack? ==> reply.seqno == seqno && reply.ackno == seqno + mss - 1)
      && (reply.Ack? ==> reply.orig == seqno && (reply.seqno == 1 || reply.ackno == seqno + mss - 1))
  {
  }

  lemma {:induction false} SameMembersSameList(a: seq<nat>, b: seq<nat>)
    requires Increasing(a) && Increasing(b)
    requires forall s :: s in a <==> s in b
    ensures a == b
  {
    assert a != [] ==> a[0] in a;
    assert b != [] ==> b[0] in b;
    if a == [] || b == [] {
    } else {
      assert a[0] in b && b[0] in a;
      assert a[0] == b[0];
      forall s ensures s in a[1..] <==> s in b[1..] {
        assert s in a <==> s == a[0] || s in a[1..];
        assert s in b <==> s == b[0] || s in b[1..];
      }
      SameMembersSameList(a[1..], b[1..]);
    }
  }

  /** The state of a sink is determined by the set of packets it has received whole. */
  lemma ReassemblyIsUnique(mss: nat, k: Sink, k': Sink, got: set<nat>)
    requires mss > 0 && Reassembles(mss, k, got) && Reassembles(mss, k', got)
    ensures k == k'
  {
    NoFurtherPrefix(mss, k, k', got);
    NoFurtherPrefix(mss, k', k, got);
    SameMembersSameList(k.received, k'.received);
  }

  lemma NoFurtherPrefix(mss: nat, k: Sink, k': Sink, got: set<nat>)
    requires mss > 0 && Reassembles(mss, k, got) && Reassembles(mss, k', got)
    ensures k'.cumulativeAck <= k.cumulativeAck
  {
    var next := k.cumulativeAck + 1;
    assert IsSeq(mss, next);
    assert next <= k'.cumulativeAck ==> next in got;
  }

  /** A run of arrivals: (sequence number, trimmed?). */
  function ReceiveAll(mss: nat, k: Sink, arrivals: seq<(nat, bool)>): Sink
    requires mss > 0
    decreases |arrivals|
  {
    if arrivals == [] then k
    else ReceiveAll(mss, Receive(mss, k, arrivals[0].0, arrivals[0].1).0, arrivals[1..])
  }

  ghost function Whole(arrivals: seq<(nat, bool)>): set<nat> {
    set i | 0 <= i < |arrivals| && !arrivals[i].1 :: arrivals[i].0
  }

  ghost predicate SeqArrivals(mss: nat, arrivals: seq<(nat, bool)>)
    requires mss > 0
  {
    forall i :: 0 <= i < |arrivals| ==> IsSeq(mss, arrivals[i].0)
  }

  lemma {:induction false} ReceiveAllReassembles(mss: nat, k: Sink, got: set<nat>, arrivals: seq<(nat, bool)>)
    requires mss > 0 && Reassembles(mss, k, got) && SeqArrivals(mss, arrivals)
    ensures Reassembles(mss, ReceiveAll(mss, k, arrivals), got + Whole(arrivals))
    decreases |arrivals|
  {
    if arrivals == [] {
      assert got + Whole(arrivals) == got;
    } else {
      var (seqno, trimmed) := arrivals[0];
      ReceiveReassembles(mss, k, got, seqno, trimmed);
      var got' := if trimmed then got else got + {seqno};
      ReceiveAllReassembles(mss, Receive(mss, k, seqno, trimmed).0, got', arrivals[1..]);
      WholeCons(arrivals);
      assert got + Whole(arrivals) == got' + Whole(arrivals[1..]);
    }
  }

  lemma WholeCons(arrivals: seq<(nat, bool)>)
    requires arrivals != []
    ensures Whole(arrivals) == (if arrivals[0].1 then {} else {arrivals[0].0}) + Whole(arrivals[1..])
  {
    var tail := arrivals[1..];
    forall s | s in Whole(arrivals)
      ensures s in (if arrivals[0].1 then {} else {arrivals[0].0}) + Whole(tail)
    {
      var i :| 0 <= i < |arrivals| && !arrivals[i].1 && arrivals[i].0 == s;
      if i > 0 {
        assert tail[i-1] == arrivals[i];
      }
    }
    forall s | s in Whole(tail) ensures s in Whole(arrivals) {
      var i :| 0 <= i < |tail| && !tail[i].1 && tail[i].0 == s;
      assert arrivals[i+1] == tail[i];
    }
  }

  /** After any arrivals the cumulative acknowledgement ends the longest gapless prefix of the packets
      received whole, and the list holds the rest in increasing order. */
  lemma LongestPrefixAndRest(mss: nat, arrivals: seq<(nat, bool)>)
    requires mss > 0 && SeqArrivals(mss, arrivals)
    ensures var k, got := ReceiveAll(mss, EmptySink, arrivals), Whole(arrivals);
      && Aligned(mss, k.cumulativeAck)
      && (forall s :: IsSeq(mss, s) && s <= k.cumulativeAck ==> s in got)
      && k.cumulativeAck + 1 !in got
      && Increasing(k.received)
      && (forall s :: s in k.received <==> s in got && s > k.cumulativeAck)
  {
    EmptyReassembles(mss);
    ReceiveAllReassembles(mss, EmptySink, {}, arrivals);
    assert {} + Whole(arrivals) == Whole(arrivals);
  }

  lemma EmptyReassembles(mss: nat)
    requires mss > 0
    ensures Reassembles(mss, EmptySink, {})
  {
  }

  /** Order, duplicates and trimmed copies do not matter: only the set of packets received whole does. */
  lemma OrderIndependence(mss: nat, a: seq<(nat, bool)>, b: seq<(nat, bool)>)
    requires mss > 0 && SeqArrivals(mss, a) && SeqArrivals(mss, b)
    requires Whole(a) == Whole(b)
    ensures ReceiveAll(mss, EmptySink, a) == ReceiveAll(mss, EmptySink, b)
  {
    EmptyReassembles(mss);
    ReceiveAllReassembles(mss, EmptySink, {}, a);
    ReceiveAllReassembles(mss, EmptySink, {}, b);
    assert {} + Whole(a) == Whole(a);
    assert {} + Whole(b) == Whole(b);
    ReassemblyIsUnique(mss, ReceiveAll(mss, EmptySink, a), ReceiveAll(mss, EmptySink, b), Whole(a));
  }

  /** The receiver object, updated in place. */
  class BBRSink {
    const mss: nat
    var cumulativeAck: nat
    var received: seq<nat>

    ghost predicate Valid()
      reads this
    {
      mss > 0 && Increasing(received)
    }

    ghost function View(): Sink
      reads this
    {
      Sink(cumulativeAck, received)
    }

    constructor (mss: nat)
      requires mss > 0
      ensures Valid() && this.mss == mss && View() == EmptySink
    {
      this.mss := mss;
      cumulativeAck := 0;
      received := [];
    }

    method AlreadyReceivedScan(seqno: nat) returns (found: bool)
      requires Valid()
      ensures found == AlreadyReceived(View(), seqno)
    {
      if seqno <= cumulativeAck {
        return true;
      }
      for i := 0 to |received|
        invariant seqno !in received[..i]
      {
        if seqno == received[i] {
          return true;
        }
        assert received[..i+1] == received[..i] + [received[i]];
      }
      assert received[..|received|] == received;
      return false;
    }

    method InsertOutOfOrder(seqno: nat)
      requires Valid()
      modifies this`received
      ensures Valid() && received == Insert(old(received), seqno)
    {
      InsertMembers(received, seqno);
      if received == [] {
        received := [seqno];
      } else if seqno > received[|received|-1] {
        InsertAtFirstGreater(received, seqno, |received|);
        assert received == received[..|received|] && received[|received|..] == [];
        received := received + [seqno];
      } else {
        var i := 0;
        while i < |received|
          invariant 0 <= i < |received| && received == old(received)
          invariant forall j :: 0 <= j < i ==> received[j] < seqno
        {
          if seqno == received[i] {
            InsertPresent(received, seqno, i);
            return;
          }
          if seqno < received[i] {
            InsertAtFirstGreater(received, seqno, i);
            received := received[..i] + [seqno] + received[i..];
            return;
          }
          i := i + 1;
        }
      }
    }

    /** Handles one data packet or trimmed header and returns the reply to send. */
    method ReceivePacket(seqno: nat, trimmed: bool) returns (reply: Msg)
      requires Valid()
      modifies this
      ensures Valid() && (View(), reply) == Receive(mss, old(View()), seqno, trimmed)
    {
      var duplicate := AlreadyReceivedScan(seqno);
      if duplicate {
        return Ack(1, cumulativeAck, seqno);
      }
      if trimmed {
        return Nack(seqno, seqno + mss - 1);
      }
      if seqno == cumulativeAck + 1 {
        cumulativeAck := seqno + mss - 1;
        ghost var start := View();
        while received != [] && received[0] == cumulativeAck + 1
          invariant Valid() && Absorb(mss, View()) == Absorb(mss, start)
          decreases |received|
        {
          received := received[1..];
          cumulativeAck := cumulativeAck + mss;
        }
        reply := Ack(1, cumulativeAck, seqno);
      } else {
        InsertOutOfOrder(seqno);
        reply := Ack(seqno, seqno + mss - 1, seqno);
      }
    }
  }
}
