/** Weighted round robin between two classes of waiting packets: `high` decisions for the high class, one for the low. */
module WeightedRoundRobin {

  datatype Serv = Invalid | Low | High

  /** What a decision saw and chose, and the counter it left. */
  datatype Decision = Decision(lowWaiting: bool, highWaiting: bool, choice: Serv, crt: nat)

  predicate Contended(d: Decision) { d.lowWaiting && d.highWaiting }

  function Successor(high: nat, crt: nat): nat { if crt + 1 >= high + 1 then 0 else crt + 1 }

  function CrtBefore(ds: seq<Decision>, i: nat): nat
    requires i <= |ds|
  {
    if i == 0 then 0 else ds[i-1].crt
  }

  /** A contended decision advances the counter, and chooses the low class at its last value only. */
  predicate RoundRobin(high: nat, d: Decision, crt: nat) {
    if Contended(d) then d.crt == Successor(high, crt) && d.choice == if d.crt == high then Low else High
    else d.crt == crt && d.choice == (if d.highWaiting then High else Low) && (d.highWaiting || d.lowWaiting)
  }

  predicate StillWaiting(d: Decision) { d.lowWaiting && d.choice.High? }

  /** The decisions taken while both classes were waiting. */
  function ContendedOf(ds: seq<Decision>): seq<Decision> {
    if ds == [] then []
    else ContendedOf(ds[..|ds| - 1]) + if Contended(ds[|ds| - 1]) then [ds[|ds| - 1]] else []
  }

  ghost predicate AllRoundRobin(high: nat, ds: seq<Decision>) {
    forall i :: 0 <= i < |ds| ==> RoundRobin(high, ds[i], CrtBefore(ds, i))
  }

  /** The value of the counter after `k` contended decisions. */
  function Turn(high: nat, k: nat): nat {
    if k == 0 then 0 else Successor(high, Turn(high, k - 1))
  }

  predicate LowTurn(high: nat, k: nat) { Turn(high, k + 1) == high }

  lemma {:induction false} TurnNext(high: nat, k: nat)
    ensures Turn(high, k + 1) == Successor(high, Turn(high, k)) && Turn(high, k) <= high
    ensures LowTurn(high, k) <==> Turn(high, k + 1) == high
  {
    if k == 0 {
    } else {
      TurnNext(high, k - 1);
    }
  }

  /** The counter from `i` contended decisions on, within one round. */
  lemma {:induction false} TurnFrom(high: nat, i: nat, d: nat)
    requires d <= high + 1
    ensures Turn(high, i + d) == if Turn(high, i) + d <= high then Turn(high, i) + d else Turn(high, i) + d - high - 1
    decreases d
  {
    TurnNext(high, i);
    if d == 0 {
    } else {
      TurnFrom(high, i, d - 1);
      TurnNext(high, i + d - 1);
    }
  }

  /** A full round has one low turn. */
  lemma OneLowTurn(high: nat, i: nat) returns (j: nat)
    requires high > 0
    ensures i <= j <= i + high && forall k :: i <= k <= i + high ==> (LowTurn(high, k) <==> k == j)
  {
    TurnNext(high, i);
    var t := Turn(high, i);
    j := i + if t < high then high - 1 - t else high;
    hide LowTurn, Turn;
    forall k | i <= k <= i + high ensures LowTurn(high, k) <==> k == j {
      TurnFrom(high, i, k + 1 - i);
      TurnNext(high, k);
    }
  }

  lemma {:induction false} ContendedCounter(high: nat, ds: seq<Decision>)
    requires AllRoundRobin(high, ds)
    ensures CrtBefore(ds, |ds|) == Turn(high, |ContendedOf(ds)|)
    ensures forall k :: 0 <= k < |ContendedOf(ds)| ==>
      (ContendedOf(ds)[k].choice == if LowTurn(high, k) then Low else High)
    decreases |ds|
  {
    if ds == [] {
    } else {
      hide Turn, RoundRobin, LowTurn, ContendedOf, AllRoundRobin;
      var init, last := ds[..|ds| - 1], ds[|ds| - 1];
      InitRoundRobin(high, ds);
      ContendedCounter(high, init);
      Chosen(high, last, CrtBefore(init, |init|));
      TurnNext(high, |ContendedOf(init)|);
      ContendedLast(ds);
      ChosenAdded(high, ContendedOf(init), last, ContendedOf(ds));
    }
  }

  lemma InitRoundRobin(high: nat, ds: seq<Decision>)
    requires AllRoundRobin(high, ds) && ds != []
    ensures var init := ds[..|ds| - 1];
      AllRoundRobin(high, init) && RoundRobin(high, ds[|ds| - 1], CrtBefore(init, |init|))
  {
    hide RoundRobin;
    var init := ds[..|ds| - 1];
    forall i | 0 <= i < |init| ensures RoundRobin(high, init[i], CrtBefore(init, i)) {
      assert init[i] == ds[i] && CrtBefore(init, i) == CrtBefore(ds, i);
    }
    assert CrtBefore(init, |init|) == CrtBefore(ds, |ds| - 1);
    assert RoundRobin(high, ds[|ds| - 1], CrtBefore(ds, |ds| - 1));
  }

  lemma ContendedLast(ds: seq<Decision>)
    requires ds != []
    ensures ContendedOf(ds) == ContendedOf(ds[..|ds| - 1]) + if Contended(ds[|ds| - 1]) then [ds[|ds| - 1]] else []
  {
  }

  lemma ChosenAdded(high: nat, f: seq<Decision>, d: Decision, f': seq<Decision>)
    requires f' == f + if Contended(d) then [d] else []
    requires forall k :: 0 <= k < |f| ==> (f[k].choice == if LowTurn(high, k) then Low else High)
    requires Contended(d) ==> (d.choice == if LowTurn(high, |f|) then Low else High)
    ensures forall k :: 0 <= k < |f'| ==> (f'[k].choice == if LowTurn(high, k) then Low else High)
  {
    hide LowTurn, Contended;
  }

  lemma Chosen(high: nat, d: Decision, crt: nat)
    requires RoundRobin(high, d, crt)
    ensures d.crt == if Contended(d) then Successor(high, crt) else crt
    ensures Contended(d) ==> d.choice == if d.crt == high then Low else High
  {
  }

  lemma DecisionAdded(high: nat, ds: seq<Decision>, d: Decision)
    requires forall i :: 0 <= i < |ds| ==> RoundRobin(high, ds[i], CrtBefore(ds, i))
    requires forall i :: 0 < i < |ds| && StillWaiting(ds[i-1]) ==> ds[i].lowWaiting
    requires RoundRobin(high, d, CrtBefore(ds, |ds|)) && (ds != [] && StillWaiting(ds[|ds| - 1]) ==> d.lowWaiting)
    ensures var ds' := ds + [d];
      && (forall i :: 0 <= i < |ds'| ==> RoundRobin(high, ds'[i], CrtBefore(ds', i)))
      && (forall i :: 0 < i < |ds'| && StillWaiting(ds'[i-1]) ==> ds'[i].lowWaiting)
      && CrtBefore(ds', |ds'|) == d.crt && (StillWaiting(d) ==> d.lowWaiting)
  {
    hide RoundRobin;
    var ds' := ds + [d];
    forall i | 0 <= i < |ds'| ensures RoundRobin(high, ds'[i], CrtBefore(ds', i)) {
      assert i < |ds| ==> ds'[i] == ds[i] && CrtBefore(ds', i) == CrtBefore(ds, i);
    }
  }

  /** While only the high class is chosen, each decision with a low packet waiting advances the counter. */
  lemma {:induction false} CounterClimbs(high: nat, ds: seq<Decision>, i: nat, k: nat)
    requires AllRoundRobin(high, ds) && i + k < |ds|
    requires forall j :: i <= j <= i + k ==> ds[j].choice.High? && ds[j].lowWaiting
    ensures ds[i + k].crt == ds[i].crt + k && ds[i + k].crt < high
    decreases k
  {
    assert RoundRobin(high, ds[i + k], CrtBefore(ds, i + k));
    assert ds[i + k].choice.High? && ds[i + k].lowWaiting;
    if k == 0 {
    } else {
      CounterClimbs(high, ds, i, k - 1);
    }
  }

  lemma {:induction false} KeepsWaiting(ds: seq<Decision>, i: nat, k: nat)
    requires i + k < |ds| && ds[i].lowWaiting
    requires forall j :: 0 < j < |ds| && StillWaiting(ds[j-1]) ==> ds[j].lowWaiting
    requires forall j :: i <= j < i + k ==> ds[j].choice.High?
    ensures ds[i + k].lowWaiting
    decreases k
  {
    if k == 0 {
    } else {
      KeepsWaiting(ds, i, k - 1);
      assert ds[i + (k - 1)].choice.High?;
      assert StillWaiting(ds[i + k - 1]);
    }
  }

  ghost predicate LowChosen(ds: seq<Decision>, from: nat, to: nat) {
    exists j :: from <= j <= to && j < |ds| && ds[j].choice.Low?
  }

  /** A decision that sees a low packet waiting is followed, itself included, by a low one within the length of a round. */
  lemma LowWithinRound(high: nat, ds: seq<Decision>, i: nat)
    requires AllRoundRobin(high, ds) && forall j :: 0 < j < |ds| && StillWaiting(ds[j-1]) ==> ds[j].lowWaiting
    requires i + high < |ds| && ds[i].lowWaiting
    ensures LowChosen(ds, i, i + high)
  {
    hide RoundRobin, StillWaiting;
    if !LowChosen(ds, i, i + high) {
      AllHighWaiting(high, ds, i);
      CounterClimbs(high, ds, i, high);
      assert false;
    }
  }

  lemma AllHighWaiting(high: nat, ds: seq<Decision>, i: nat)
    requires AllRoundRobin(high, ds) && forall j :: 0 < j < |ds| && StillWaiting(ds[j-1]) ==> ds[j].lowWaiting
    requires i + high < |ds| && ds[i].lowWaiting && !LowChosen(ds, i, i + high)
    ensures forall j :: i <= j <= i + high ==> ds[j].choice.High? && ds[j].lowWaiting
  {
    hide RoundRobin, StillWaiting, AllRoundRobin;
    ChoosesSome(high, ds, i, i + high);
    forall j | i <= j <= i + high ensures ds[j].lowWaiting {
      KeepsWaiting(ds, i, j - i);
    }
  }

  lemma ChoosesSome(high: nat, ds: seq<Decision>, i: nat, j: nat)
    requires AllRoundRobin(high, ds) && i <= j < |ds| && forall k :: i <= k <= j ==> !ds[k].choice.Low?
    ensures forall k :: i <= k <= j ==> ds[k].choice.High?
  {
    forall k | i <= k <= j ensures ds[k].choice.High? {
      assert RoundRobin(high, ds[k], CrtBefore(ds, k));
    }
  }

  /** Of any round of consecutive contended decisions exactly one is for the low class. */
  lemma OneLowInRound(high: nat, ds: seq<Decision>, i: nat) returns (j: nat)
    requires high > 0 && AllRoundRobin(high, ds) && i + high < |ContendedOf(ds)|
    ensures i <= j <= i + high
    ensures forall k :: i <= k <= i + high ==> (ContendedOf(ds)[k].choice == if k == j then Low else High)
  {
    hide ContendedOf, RoundRobin, LowTurn, AllRoundRobin;
    ContendedCounter(high, ds);
    j := OneLowTurn(high, i);
  }
}
