/** Round robin over a sorted map of per-flow queues through a live iterator: what it computes, and why it is fair. */
module FairPull {
  import opened Basics

  /** A position in the sorted map: an existing key, or past the last one. */
  datatype Cursor = End | At(key: nat)

  datatype State<T> = State(queues: map<nat, seq<T>>, cursor: Cursor)
  {
    ghost predicate Valid() { cursor.At? ==> cursor.key in queues }
  }

  // ---------------------------------------------------------------- sorted keys

  predicate IsLeast(k: nat, s: set<nat>) {
    k in s && forall x :: x in s ==> k <= x
  }

  lemma {:induction false} LeastExists(s: set<nat>) returns (k: nat)
    requires s != {}
    ensures IsLeast(k, s)
    decreases |s|
  {
    var x :| x in s;
    if s == {x} {
      k := x;
    } else {
      var rest := s - {x};
      k := LeastExists(rest);
      if x < k {
        k := x;
      }
      assert forall y :: y in s ==> y == x || y in rest;
    }
  }

  function Least(s: set<nat>): (k: nat)
    requires s != {}
    ensures IsLeast(k, s)
  {
    assert exists k :: IsLeast(k, s) by { var k := LeastExists(s); }
    var k :| k in s && IsLeast(k, s);
    k
  }

  function CursorAtLeast(s: set<nat>): Cursor {
    if s == {} then End else At(Least(s))
  }

  function Above(keys: set<nat>, k: nat): set<nat> {
    set x | x in keys && x > k
  }

  /** The iterator after the one at `k`. */
  function After(keys: set<nat>, k: nat): Cursor {
    CursorAtLeast(Above(keys, k))
  }

  // ---------------------------------------------------------------- operations

  ghost function Backlog<T>(st: State<T>): set<nat> {
    set k | k in st.queues && st.queues[k] != []
  }

  /** Backlogged flows at or after the cursor. */
  ghost function FromCursor<T>(st: State<T>): set<nat> {
    if st.cursor.End? then {} else set k | k in Backlog(st) && k >= st.cursor.key
  }

  /** The flow served next: the first backlogged one from the cursor on, around the end of the map. */
  ghost function NextServed<T>(st: State<T>): (k: nat)
    requires Backlog(st) != {}
    ensures k in Backlog(st)
  {
    if FromCursor(st) != {} then Least(FromCursor(st)) else Least(Backlog(st))
  }

  ghost function Enqueue<T>(st: State<T>, flow: nat, item: T): State<T> {
    st.(queues := st.queues[flow := (if flow in st.queues then st.queues[flow] else []) + [item]])
  }

  ghost function Dequeue<T>(st: State<T>): (Option<(nat, T)>, State<T>) {
    if Backlog(st) == {} then (None, st)
    else
      var k := NextServed(st);
      (Some((k, st.queues[k][0])), State(st.queues[k := st.queues[k][1..]], After(st.queues.Keys, k)))
  }

  ghost function Flush<T>(st: State<T>, flow: nat): State<T> {
    if flow !in st.queues then st
    else State(st.queues - {flow}, if st.cursor == At(flow) then After(st.queues.Keys, flow) else st.cursor)
  }

  datatype Op<T> = Enq(flow: nat, item: T) | Deq | FlushFlow(flow: nat)

  ghost function Apply<T>(st: State<T>, op: Op<T>): State<T> {
    match op
    case Enq(flow, item) => Enqueue(st, flow, item)
    case Deq => Dequeue(st).1
    case FlushFlow(flow) => Flush(st, flow)
  }

  ghost function Run<T>(st: State<T>, ops: seq<Op<T>>): State<T>
    decreases |ops|
  {
    if ops == [] then st else Run(Apply(st, ops[0]), ops[1..])
  }

  /** What one operation hands out. */
  ghost function Output<T>(st: State<T>, op: Op<T>): seq<(nat, T)> {
    if op.Deq? && Dequeue(st).0.Some? then [Dequeue(st).0.value] else []
  }

  /** Everything a run hands out, in order. */
  ghost function Outputs<T>(st: State<T>, ops: seq<Op<T>>): seq<(nat, T)>
    decreases |ops|
  {
    if ops == [] then [] else Output(st, ops[0]) + Outputs(Apply(st, ops[0]), ops[1..])
  }

  lemma ApplyValid<T>(st: State<T>, op: Op<T>)
    requires st.Valid()
    ensures Apply(st, op).Valid()
  {
  }

  // ---------------------------------------------------------------- fairness

  /** Whether flow `g` can still be served before flow `f` is, from this cursor on. */
  ghost predicate Ahead(cursor: Cursor, f: nat, g: nat) {
    match cursor
    case End => g <= f
    case At(k) => if k <= f then k <= g <= f else g >= k || g <= f
  }

  ghost predicate Serves<T>(out: seq<(nat, T)>, g: nat) {
    exists i :: 0 <= i < |out| && out[i].0 == g
  }

  /** Serving a flow other than the backlogged `f` moves the cursor past it, and never back. */
  lemma DequeueAhead<T>(st: State<T>, f: nat)
    requires st.Valid() && f in Backlog(st)
    ensures var k, st' := NextServed(st), Dequeue(st).1;
      && Ahead(st.cursor, f, k)
      && (k != f ==> !Ahead(st'.cursor, f, k) && f in Backlog(st'))
      && (k != f ==> forall g :: Ahead(st'.cursor, f, g) ==> Ahead(st.cursor, f, g))
  {
    var k := NextServed(st);
    assert st.cursor.At? && st.cursor.key <= f ==> f in FromCursor(st);
    if k != f {
      assert Dequeue(st).1.queues[f] == st.queues[f];
      var above := Above(st.queues.Keys, k);
      assert f > k ==> f in above;
      assert st.cursor.At? && k > f ==> f !in FromCursor(st) && st.cursor.key > f;
    }
  }

  /** Flushing another flow never moves the cursor back. */
  lemma FlushAhead<T>(st: State<T>, flow: nat, f: nat)
    requires st.Valid() && f in Backlog(st) && flow != f
    ensures f in Backlog(Flush(st, flow))
    ensures forall g :: Ahead(Flush(st, flow).cursor, f, g) ==> Ahead(st.cursor, f, g)
  {
    assert f > flow ==> f in Above(st.queues.Keys, flow);
    if flow in st.queues {
      assert Flush(st, flow).queues[f] == st.queues[f];
    }
  }

  /** One operation that does not serve `f`: `f` stays backlogged, and what is served is ahead and then no more. */
  lemma ApplyAhead<T>(st: State<T>, op: Op<T>, f: nat)
    requires st.Valid() && f in Backlog(st) && op != FlushFlow(f) && !Serves(Output(st, op), f)
    ensures var st', out := Apply(st, op), Output(st, op);
      && st'.Valid() && f in Backlog(st') && |out| <= 1
      && (forall g :: Ahead(st'.cursor, f, g) ==> Ahead(st.cursor, f, g))
      && (out != [] ==> Ahead(st.cursor, f, out[0].0) && !Ahead(st'.cursor, f, out[0].0))
  {
    hide Ahead, NextServed, After;
    ApplyValid(st, op);
    match op
    case Deq =>
      DequeueAhead(st, f);
      assert Output(st, op)[0].0 == NextServed(st);
    case Enq(flow, item) =>
    case FlushFlow(flow) => FlushAhead(st, flow, f);
  }

  /** Round-robin fairness: from any state, as long as flow `f` is backlogged, not flushed and not served,
      every other flow is served at most once, whatever is enqueued, flushed or created meanwhile. */
  lemma {:induction false} RoundRobinFair<T>(st: State<T>, ops: seq<Op<T>>, f: nat)
    requires st.Valid() && f in Backlog(st)
    requires forall i :: 0 <= i < |ops| ==> ops[i] != FlushFlow(f)
    requires !Serves(Outputs(st, ops), f)
    ensures var out := Outputs(st, ops);
      && (forall i, j :: 0 <= i < j < |out| ==> out[i].0 != out[j].0)
      && (forall i :: 0 <= i < |out| ==> Ahead(st.cursor, f, out[i].0))
    ensures f in Backlog(Run(st, ops))
    decreases |ops|
  {
    hide Ahead, Backlog, Apply, Output;
    if ops == [] {
    } else {
      var st', first, rest := Apply(st, ops[0]), Output(st, ops[0]), Outputs(Apply(st, ops[0]), ops[1..]);
      NotServed(first, rest, f);
      ApplyAhead(st, ops[0], f);
      RoundRobinFair(st', ops[1..], f);
      DistinctAhead(st.cursor, st'.cursor, f, first, rest);
    }
  }

  lemma NotServed<T>(first: seq<(nat, T)>, rest: seq<(nat, T)>, f: nat)
    requires !Serves(first + rest, f)
    ensures !Serves(first, f) && !Serves(rest, f)
  {
    var out := first + rest;
    assert forall i :: 0 <= i < |first| ==> out[i] == first[i];
    assert forall i :: 0 <= i < |rest| ==> out[|first| + i] == rest[i];
  }

  /** The at most one flow served first is not ahead any more, so not among the later ones. */
  lemma DistinctAhead<T>(cursor: Cursor, cursor': Cursor, f: nat, first: seq<(nat, T)>, rest: seq<(nat, T)>)
    requires |first| <= 1 && forall g :: Ahead(cursor', f, g) ==> Ahead(cursor, f, g)
    requires first != [] ==> Ahead(cursor, f, first[0].0) && !Ahead(cursor', f, first[0].0)
    requires forall i, j :: 0 <= i < j < |rest| ==> rest[i].0 != rest[j].0
    requires forall i :: 0 <= i < |rest| ==> Ahead(cursor', f, rest[i].0)
    ensures var out := first + rest;
      && (forall i, j :: 0 <= i < j < |out| ==> out[i].0 != out[j].0)
      && (forall i :: 0 <= i < |out| ==> Ahead(cursor, f, out[i].0))
  {
    hide Ahead;
    var out := first + rest;
    assert forall i :: |first| <= i < |out| ==> out[i] == rest[i - |first|];
  }

  // ---------------------------------------------------------------- starvation

  ghost predicate Within<T>(st: State<T>, ops: seq<Op<T>>, flows: set<nat>) {
    st.queues.Keys <= flows && forall i :: 0 <= i < |ops| && ops[i].Enq? ==> ops[i].flow in flows
  }

  lemma {:induction false} OutputsWithin<T>(st: State<T>, ops: seq<Op<T>>, flows: set<nat>)
    requires Within(st, ops, flows)
    ensures forall i :: 0 <= i < |Outputs(st, ops)| ==> Outputs(st, ops)[i].0 in flows
    decreases |ops|
  {
    if ops == [] {
    } else {
      var st' := Apply(st, ops[0]);
      assert Within(st', ops[1..], flows) by {
        assert ops[0] in ops;
      }
      OutputsWithin(st', ops[1..], flows);
      var first := Output(st, ops[0]);
      assert forall i :: 0 <= i < |first| ==> first[i].0 in st.queues;
    }
  }

  lemma {:induction false} DistinctCount(a: seq<nat>, s: set<nat>)
    requires forall i, j :: 0 <= i < j < |a| ==> a[i] != a[j]
    requires forall i :: 0 <= i < |a| ==> a[i] in s
    ensures |a| <= |s|
    decreases |a|
  {
    if a == [] {
    } else {
      DistinctCount(a[1..], s - {a[0]});
    }
  }

  /** With `n` flows in play, a backlogged flow waits for fewer than `n` services of others. */
  lemma WaitIsBounded<T>(st: State<T>, ops: seq<Op<T>>, f: nat, flows: set<nat>)
    requires st.Valid() && f in Backlog(st) && Within(st, ops, flows)
    requires forall i :: 0 <= i < |ops| ==> ops[i] != FlushFlow(f)
    requires |Outputs(st, ops)| >= |flows|
    ensures Serves(Outputs(st, ops), f)
  {
    var out := Outputs(st, ops);
    if !Serves(out, f) {
      RoundRobinFair(st, ops, f);
      OutputsWithin(st, ops, flows);
      var a := seq(|out|, i requires 0 <= i < |out| => out[i].0);
      assert f in flows;
      DistinctCount(a, flows - {f});
    }
  }

  // ---------------------------------------------------------------- order and conservation

  ghost function Held<T>(st: State<T>, f: nat): seq<T> {
    if f in st.queues then st.queues[f] else []
  }

  /** The items of flow `f` in a list of outputs. */
  ghost function OfFlow<T>(out: seq<(nat, T)>, f: nat): seq<T> {
    if out == [] then []
    else (if out[0].0 == f then [out[0].1] else []) + OfFlow(out[1..], f)
  }

  ghost function Enqueued<T>(ops: seq<Op<T>>, f: nat): seq<T> {
    if ops == [] then []
    else (if ops[0].Enq? && ops[0].flow == f then [ops[0].item] else []) + Enqueued(ops[1..], f)
  }

  ghost function Flushed<T>(st: State<T>, ops: seq<Op<T>>, f: nat): seq<T>
    decreases |ops|
  {
    if ops == [] then []
    else (if ops[0] == FlushFlow(f) then Held(st, f) else []) + Flushed(Apply(st, ops[0]), ops[1..], f)
  }

  lemma EnqueuedHead<T>(ops: seq<Op<T>>, f: nat)
    requires ops != []
    ensures Enqueued(ops, f) == Enqueued([ops[0]], f) + Enqueued(ops[1..], f)
  {
    assert [ops[0]][1..] == [];
  }

  /** One operation, seen by flow `f`: items join at the end, leave at the front, or are all flushed. */
  lemma ApplyHeld<T>(st: State<T>, op: Op<T>, f: nat)
    requires st.Valid()
    ensures var h, h' := Held(st, f), Held(Apply(st, op), f);
      if op == FlushFlow(f) then h' == [] && Output(st, op) == []
      else OfFlow(Output(st, op), f) + h' == h + Enqueued([op], f)
  {
    var out := Output(st, op);
    assert Enqueued([op], f) == (if op.Enq? && op.flow == f then [op.item] else []) + Enqueued([], f);
    if op.Deq? && Backlog(st) != {} {
      var k := NextServed(st);
      assert out == [(k, st.queues[k][0])];
      assert OfFlow(out, f) == (if k == f then [st.queues[k][0]] else []) + OfFlow([], f);
    }
  }

  lemma {:induction false} OfFlowSplit<T>(a: seq<(nat, T)>, b: seq<(nat, T)>, f: nat)
    ensures OfFlow(a + b, f) == OfFlow(a, f) + OfFlow(b, f)
    decreases |a|
  {
    if a == [] {
      assert a + b == b;
    } else {
      OfFlowSplit(a[1..], b, f);
      assert (a + b)[1..] == a[1..] + b;
    }
  }

  lemma SeqChain<T>(x: seq<T>, y: seq<T>, last: seq<T>, h: seq<T>, h': seq<T>, e: seq<T>, e': seq<T>)
    requires x + h' == h + e && y + last == h' + e'
    ensures (x + y) + last == h + (e + e')
  {
    assert (x + y) + last == x + (y + last);
    assert x + (h' + e') == (x + h') + e';
    assert (h + e) + e' == h + (e + e');
  }

  /** What a run does is what its first operation does and then what the rest does. */
  lemma RunSplits<T>(st: State<T>, ops: seq<Op<T>>, f: nat)
    requires st.Valid() && ops != []
    ensures var st', rest := Apply(st, ops[0]), ops[1..];
      && st'.Valid() && Run(st, ops) == Run(st', rest)
      && OfFlow(Outputs(st, ops), f) == OfFlow(Output(st, ops[0]), f) + OfFlow(Outputs(st', rest), f)
      && Enqueued(ops, f) == Enqueued([ops[0]], f) + Enqueued(rest, f)
      && Flushed(st, ops, f) == (if ops[0] == FlushFlow(f) then Held(st, f) else []) + Flushed(st', rest, f)
  {
    hide OfFlow, Output;
    ApplyValid(st, ops[0]);
    OfFlowSplit(Output(st, ops[0]), Outputs(Apply(st, ops[0]), ops[1..]), f);
    EnqueuedHead(ops, f);
  }

  /** Each flow is first in, first out: over any run that does not flush it, what was held and then
      enqueued comes out in that order, and the rest is still held. */
  lemma {:induction false} FlowIsFifo<T>(st: State<T>, ops: seq<Op<T>>, f: nat)
    requires st.Valid()
    requires forall i :: 0 <= i < |ops| ==> ops[i] != FlushFlow(f)
    ensures OfFlow(Outputs(st, ops), f) + Held(Run(st, ops), f) == Held(st, f) + Enqueued(ops, f)
    decreases |ops|
  {
    if ops == [] {
    } else {
      hide Apply, OfFlow, Enqueued, Output, Outputs, Held, Run, Flushed;
      var op, st', rest := ops[0], Apply(st, ops[0]), ops[1..];
      RunSplits(st, ops, f);
      ApplyHeld(st, op, f);
      FlowIsFifo(st', rest, f);
      SeqChain(OfFlow(Output(st, op), f), OfFlow(Outputs(st', rest), f), Held(Run(st, ops), f),
        Held(st, f), Held(st', f), Enqueued([op], f), Enqueued(rest, f));
    }
  }

  lemma MultisetChain<T>(x: seq<T>, y: seq<T>, fl: seq<T>, fl': seq<T>, last: seq<T>, h: seq<T>, h': seq<T>, e: seq<T>, e': seq<T>)
    requires (fl == [] && x + h' == h + e) || (fl == h && h' == [] && x == [] && e == [])
    requires multiset(h') + multiset(e') == multiset(y) + multiset(fl') + multiset(last)
    ensures multiset(h) + multiset(e + e') == multiset(x + y) + multiset(fl + fl') + multiset(last)
  {
    assert multiset(e + e') == multiset(e) + multiset(e');
    assert multiset(x + y) == multiset(x) + multiset(y);
    assert multiset(fl + fl') == multiset(fl) + multiset(fl');
    var H, H', E, E' := multiset(h), multiset(h'), multiset(e), multiset(e');
    var X, Y, F', L := multiset(x), multiset(y), multiset(fl'), multiset(last);
    if fl == [] && x + h' == h + e {
      assert X + H' == multiset(x + h') == multiset(h + e) == H + E;
      assert fl + fl' == fl';
      assert H + (E + E') == (X + H') + E' == X + (H' + E') == X + (Y + F' + L) == (X + Y) + F' + L;
    } else {
      assert e + e' == e' && x + y == y && H' + E' == E';
      assert H + E' == H + (Y + F' + L) == Y + (H + F') + L;
    }
  }

  /** Nothing is lost or made up: held and enqueued items are the ones handed out, flushed and still held. */
  lemma {:induction false} FlowIsConserved<T>(st: State<T>, ops: seq<Op<T>>, f: nat)
    requires st.Valid()
    ensures multiset(Held(st, f)) + multiset(Enqueued(ops, f)) ==
      multiset(OfFlow(Outputs(st, ops), f)) + multiset(Flushed(st, ops, f)) + multiset(Held(Run(st, ops), f))
    decreases |ops|
  {
    if ops == [] {
    } else {
      var op, st', rest := ops[0], Apply(st, ops[0]), ops[1..];
      assert op == FlushFlow(f) ==> Enqueued([op], f) == [] && OfFlow(Output(st, op), f) == [];
      hide Apply, OfFlow, Enqueued, Output, Outputs, Held, Run, Flushed;
      RunSplits(st, ops, f);
      ApplyHeld(st, op, f);
      FlowIsConserved(st', rest, f);
      MultisetChain(OfFlow(Output(st, op), f), OfFlow(Outputs(st', rest), f),
        if op == FlushFlow(f) then Held(st, f) else [], Flushed(st', rest, f), Held(Run(st, ops), f),
        Held(st, f), Held(st', f), Enqueued([op], f), Enqueued(rest, f));
    }
  }

  // ---------------------------------------------------------------- the total count

  /** The number of items held by the flows in `keys`. */
  ghost function Total<T>(queues: map<nat, seq<T>>, keys: set<nat>): nat
    requires keys <= queues.Keys
    decreases |keys|
  {
    if keys == {} then 0
    else
      var k := Least(keys);
      |queues[k]| + Total(queues, keys - {k})
  }

  lemma {:induction false} TotalRemove<T>(queues: map<nat, seq<T>>, keys: set<nat>, k: nat)
    requires keys <= queues.Keys && k in keys
    ensures Total(queues, keys) == |queues[k]| + Total(queues, keys - {k})
    decreases |keys|
  {
    var l := Least(keys);
    if k != l {
      TotalRemove(queues, keys - {l}, k);
      TotalRemove(queues, keys - {k}, l);
      assert keys - {l} - {k} == keys - {k} - {l};
    }
  }

  lemma {:induction false} TotalAgree<T>(q: map<nat, seq<T>>, q': map<nat, seq<T>>, keys: set<nat>)
    requires keys <= q.Keys && keys <= q'.Keys && forall k :: k in keys ==> q[k] == q'[k]
    ensures Total(q, keys) == Total(q', keys)
    decreases |keys|
  {
    if keys != {} {
      TotalAgree(q, q', keys - {Least(keys)});
    }
  }

  lemma {:induction false} TotalZero<T>(st: State<T>, keys: set<nat>)
    requires keys <= st.queues.Keys
    ensures Total(st.queues, keys) == 0 <==> keys * Backlog(st) == {}
    decreases |keys|
  {
    if keys != {} {
      var l := Least(keys);
      TotalZero(st, keys - {l});
      assert keys * Backlog(st) == (keys - {l}) * Backlog(st) + if l in Backlog(st) then {l} else {};
    }
  }

  ghost function Count<T>(st: State<T>): nat {
    Total(st.queues, st.queues.Keys)
  }

  /** How each operation changes the number of items held. */
  lemma CountAfter<T>(st: State<T>, op: Op<T>)
    requires st.Valid()
    ensures Count(Apply(st, op)) == Count(st)
      + (if op.Enq? then 1 else 0)
      - |Output(st, op)|
      - (if op.FlushFlow? then |Held(st, op.flow)| else 0)
  {
    var st' := Apply(st, op);
    if op.Enq? || (op.Deq? && Backlog(st) != {}) || (op.FlushFlow? && op.flow in st.queues) {
      var k := if op.Deq? then NextServed(st) else op.flow;
      var others := st.queues.Keys - {k};
      TotalAgree(st.queues, st'.queues, others);
      if k in st.queues {
        TotalRemove(st.queues, st.queues.Keys, k);
      } else {
        assert others == st.queues.Keys;
      }
      if k in st'.queues {
        TotalRemove(st'.queues, st'.queues.Keys, k);
        assert st'.queues.Keys - {k} == others;
      } else {
        assert others == st'.queues.Keys;
      }
    }
  }

  // ---------------------------------------------------------------- the search for a backlogged flow

  /** How far the iterator still is from the flow to serve: whether it must go around the end of the map,
      and the keys from it on. */
  ghost function MustWrap<T>(st: State<T>): nat
    requires Backlog(st) != {}
  {
    if st.cursor.At? && st.cursor.key <= NextServed(st) then 0 else 1
  }

  ghost function KeysFrom<T>(st: State<T>): set<nat> {
    if st.cursor.End? then {} else set k | k in st.queues && k >= st.cursor.key
  }

  /** Going around the end of the map does not change which flow is next, and brings it nearer. */
  lemma WrapAround<T>(st: State<T>)
    requires st.cursor.End? && Backlog(st) != {}
    ensures st.queues.Keys != {}
    ensures var st' := st.(cursor := CursorAtLeast(st.queues.Keys));
      NextServed(st') == NextServed(st) && MustWrap(st') == 0 < MustWrap(st)
  {
    var st' := st.(cursor := CursorAtLeast(st.queues.Keys));
    assert NextServed(st) in st.queues.Keys;
    assert Backlog(st') == Backlog(st) && FromCursor(st') == Backlog(st);
  }

  /** Passing an empty queue does not change which flow is next, and brings it nearer. */
  lemma SkipEmpty<T>(st: State<T>)
    requires st.Valid() && st.cursor.At? && st.cursor.key !in Backlog(st) && Backlog(st) != {}
    ensures var st' := st.(cursor := After(st.queues.Keys, st.cursor.key));
      && st'.Valid() && NextServed(st') == NextServed(st)
      && MustWrap(st') <= MustWrap(st) && |KeysFrom(st')| < |KeysFrom(st)|
  {
    var k, keys := st.cursor.key, st.queues.Keys;
    var st' := st.(cursor := After(keys, k));
    assert Backlog(st') == Backlog(st);
    assert FromCursor(st') == FromCursor(st) by {
      assert forall x :: x in FromCursor(st) ==> x in Above(keys, k);
    }
    assert NextServed(st) > k ==> NextServed(st) in Above(keys, k);
    assert k in KeysFrom(st) - KeysFrom(st');
    assert forall x :: x in KeysFrom(st') ==> x in Above(keys, k) && x in KeysFrom(st);
    assert KeysFrom(st') <= KeysFrom(st) - {k};
    SubsetSize(KeysFrom(st'), KeysFrom(st) - {k});
  }

  lemma {:induction false} SubsetSize(a: set<nat>, b: set<nat>)
    requires a <= b
    ensures |a| <= |b|
    decreases |a|
  {
    if a != {} {
      var x :| x in a;
      SubsetSize(a - {x}, b - {x});
    }
  }

  lemma AtServed<T>(st: State<T>)
    requires st.cursor.At? && st.cursor.key in Backlog(st)
    ensures NextServed(st) == st.cursor.key
  {
    assert st.cursor.key in FromCursor(st);
  }

  ghost function Wrapped<T>(st: State<T>): Cursor {
    if st.cursor.End? then CursorAtLeast(st.queues.Keys) else st.cursor
  }

  /** One turn of the search: the queue passed is the one to serve if it holds something; otherwise the
      search goes on, nearer to the one to serve. */
  lemma PassOne<T>(st: State<T>)
    requires st.Valid() && Backlog(st) != {}
    ensures Wrapped(st).At? && Wrapped(st).key in st.queues
    ensures var k := Wrapped(st).key; var st' := st.(cursor := After(st.queues.Keys, k));
      if st.queues[k] != [] then k == NextServed(st)
      else
        && st'.Valid() && Backlog(st') != {} && NextServed(st') == NextServed(st)
        && (MustWrap(st') < MustWrap(st) || (MustWrap(st') == MustWrap(st) && |KeysFrom(st')| < |KeysFrom(st)|))
  {
    hide NextServed, KeysFrom, MustWrap, After;
    if st.cursor.End? {
      WrapAround(st);
    }
    var at := st.(cursor := Wrapped(st));
    assert Backlog(at) == Backlog(st);
    var k := at.cursor.key;
    if k in Backlog(at) {
      AtServed(at);
    } else {
      SkipEmpty(at);
      assert at.(cursor := After(st.queues.Keys, k)) == st.(cursor := After(st.queues.Keys, k));
    }
  }
}
