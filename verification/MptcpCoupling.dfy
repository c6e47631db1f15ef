/** The integer coupling factor of the linked-increases multipath congestion control (sections 3 and 4.1 of RFC 6356). */
module MptcpCoupling {
  import opened Basics

  const A_SCALE: nat := 512
  const RTT_UNIT: nat := 10_000_000   // picoseconds in ten microseconds

  /** `rtt` is in picoseconds. */
  datatype Flow = Flow(cwnd: nat, ssthresh: nat, inFastRecovery: bool, mss: nat, rtt: nat)

  function Window(f: Flow): nat { if f.inFastRecovery then f.ssthresh else f.cwnd }

  /** Ten-microsecond units, at least one. */
  function Rtt(f: Flow): (r: nat)
    ensures r >= 1
  {
    if f.rtt / RTT_UNIT == 0 then 1 else f.rtt / RTT_UNIT
  }

  function Per(x: nat, d: nat): nat
    requires d > 0
  {
    x / d
  }

  /** The window times the segment size per round trip, and that again per round trip, rounded down at each division. */
  function ShareOf(w: nat, m: nat, r: nat): nat
    requires r > 0
  {
    Per(Per(w * m * m, r), r)
  }

  function RateOf(w: nat, m: nat, r: nat): nat
    requires r > 0
  {
    Per(w * m, r)
  }

  function Share(f: Flow): nat { ShareOf(Window(f), f.mss, Rtt(f)) }
  function Rate(f: Flow): nat { RateOf(Window(f), f.mss, Rtt(f)) }

  function TotalWindow(flows: seq<Flow>): nat {
    if flows == [] then 0 else TotalWindow(flows[..|flows| - 1]) + Window(flows[|flows| - 1])
  }

  function TotalRate(flows: seq<Flow>): nat {
    if flows == [] then 0 else TotalRate(flows[..|flows| - 1]) + Rate(flows[|flows| - 1])
  }

  function BestShare(flows: seq<Flow>): nat {
    if flows == [] then 0
    else
      var rest, last := BestShare(flows[..|flows| - 1]), Share(flows[|flows| - 1]);
      if rest >= last then rest else last
  }

  function Scaled(total: nat, best: nat, rate: nat): nat
    requires rate > 0
  {
    Per(Per(A_SCALE * total * best, rate), rate)
  }

  /** A scaled factor of zero is replaced by one. `None` is a division by zero. */
  function Coupling(total: nat, best: nat, rate: nat): Option<nat> {
    if rate == 0 then None
    else if Scaled(total, best, rate) == 0 then Some(A_SCALE)
    else Some(Scaled(total, best, rate))
  }

  function ComputeA(flows: seq<Flow>): Option<nat> {
    Coupling(TotalWindow(flows), BestShare(flows), TotalRate(flows))
  }

  method ComputeAScaled(flows: seq<Flow>) returns (a: Option<nat>)
    ensures a == ComputeA(flows)
  {
    hide ShareOf, RateOf, Scaled;
    var sumDenominator, t, cwndSum := 0, 0, 0;
    for i := 0 to |flows|
      invariant t == BestShare(flows[..i]) && sumDenominator == TotalRate(flows[..i]) && cwndSum == TotalWindow(flows[..i])
    {
      assert flows[..i+1][..i] == flows[..i];
      var flow := flows[i];
      var cwnd := if flow.inFastRecovery then flow.ssthresh else flow.cwnd;
      var rtt := flow.rtt / RTT_UNIT;
      if rtt == 0 {
        rtt := 1;
      }
      var share := ShareOf(cwnd, flow.mss, rtt);
      t := if t >= share then t else share;
      sumDenominator := sumDenominator + RateOf(cwnd, flow.mss, rtt);
      cwndSum := cwndSum + cwnd;
    }
    assert flows[..|flows|] == flows;
    if sumDenominator == 0 {
      return None;
    }
    var alpha := Scaled(cwndSum, t, sumDenominator);
    if alpha == 0 {
      alpha := A_SCALE;
    }
    return Some(alpha);
  }

  method ComputeTotalWindow(flows: seq<Flow>) returns (total: nat)
    ensures total == TotalWindow(flows)
  {
    total := 0;
    for i := 0 to |flows|
      invariant total == TotalWindow(flows[..i])
    {
      assert flows[..i+1][..i] == flows[..i];
      total := total + Window(flows[i]);
    }
    assert flows[..|flows|] == flows;
  }

  /** The same flow as far as the factor goes: its threshold counts in fast recovery only, its window only outside it. */
  predicate SameToCoupling(f: Flow, g: Flow) {
    && g.inFastRecovery == f.inFastRecovery && g.mss == f.mss && g.rtt == f.rtt
    && if f.inFastRecovery then g.ssthresh == f.ssthresh else g.cwnd == f.cwnd
  }

  /** Outside fast recovery the factor and the total window do not depend on a flow's threshold, and in fast recovery not on
      its window. */
  lemma {:induction false} IgnoresOtherWindow(flows: seq<Flow>, other: seq<Flow>)
    requires |other| == |flows| && forall i :: 0 <= i < |flows| ==> SameToCoupling(flows[i], other[i])
    ensures TotalWindow(other) == TotalWindow(flows) && BestShare(other) == BestShare(flows) && TotalRate(other) == TotalRate(flows)
    ensures ComputeA(other) == ComputeA(flows)
    decreases |flows|
  {
    hide ShareOf, RateOf, Coupling;
    if flows == [] {
    } else {
      var n := |flows| - 1;
      IgnoresOtherWindow(flows[..n], other[..n]);
      assert SameToCoupling(flows[n], other[n]);
    }
  }

  // ---------------------------------------------------------------- sums and maximum

  lemma {:induction false} Parts(flows: seq<Flow>, k: nat)
    requires k < |flows|
    ensures Window(flows[k]) <= TotalWindow(flows) && Rate(flows[k]) <= TotalRate(flows) && Share(flows[k]) <= BestShare(flows)
    decreases |flows|
  {
    hide Window, Rate, Share;
    if k < |flows| - 1 {
      Parts(flows[..|flows| - 1], k);
    }
  }

  lemma {:induction false} BestIsAttained(flows: seq<Flow>) returns (k: nat)
    requires flows != []
    ensures k < |flows| && Share(flows[k]) == BestShare(flows)
    decreases |flows|
  {
    hide Share;
    k := |flows| - 1;
    if |flows| > 1 && BestShare(flows[..k]) >= Share(flows[k]) {
      k := BestIsAttained(flows[..k]);
    }
  }

  // ---------------------------------------------------------------- arithmetic of the roundings

  /** Rounding down at each of two divisions loses nothing against the product of the divisors. */
  lemma TwiceFloor(x: nat, d: nat)
    requires d > 0
    ensures d * d * (x / d / d) <= x
  {
    Floor(x, d);
    Floor(x / d, d);
    MultiplyMonotone(d, d * (x / d / d), x / d);
    assert d * (d * (x / d / d)) == d * d * (x / d / d);
  }

  /** The share of a flow times its window, against the square of its window times its segment size. */
  lemma ShareAgainstRate(w: nat, m: nat, r: nat)
    requires r > 0
    ensures (r * r) * (ShareOf(w, m, r) * w) <= (w * m) * (w * m)
  {
    TwiceFloor(w * m * m, r);
    ShareTimesWindow(w, m, r * r, ShareOf(w, m, r));
  }

  lemma ShareTimesWindow(w: nat, m: nat, rr: nat, t: nat)
    requires rr * t <= w * m * m
    ensures rr * (t * w) <= (w * m) * (w * m)
  {
    MultiplyMonotone(w, rr * t, w * m * m);
    Swap(w, rr, t);
    Squares(w, m);
  }

  lemma Swap(a: nat, b: nat, c: nat)
    ensures a * (b * c) == b * (c * a)
  {
  }

  lemma Squares(w: nat, m: nat)
    ensures w * (w * m * m) == (w * m) * (w * m)
  {
  }

  lemma SquareMonotone(x: nat, y: nat)
    requires x <= y
    ensures x * x <= y * y
  {
    MultiplyMonotone(x, x, y);
    MultiplyMonotone(y, x, y);
  }

  lemma StrictSquare(x: nat, y: nat)
    requires x < y
    ensures x * x < y * y
  {
    SquareMonotone(x + 1, y);
    assert (x + 1) * (x + 1) == x * x + 2 * x + 1;
  }

  lemma Cancel(k: nat, x: int, y: int)
    requires k > 0 && k * x <= k * y
    ensures x <= y
  {
    if x > y {
      MultiplyMonotone(k, y + 1, x);
      OneMore(k, y);
      assert false;
    }
  }

  lemma CancelStrict(k: nat, x: int, y: int)
    requires k > 0 && k * x < k * y
    ensures x < y
  {
    if x >= y {
      MultiplyMonotone(k, y, x);
      assert false;
    }
  }

  lemma OneMore(k: int, y: int)
    ensures k * (y + 1) == k * y + k
  {
  }

  // ---------------------------------------------------------------- the bound

  /** A flow with a rate of at least one: share times window is below four times the squared rate, and
      at most the squared rate if the round trip divides its window times its segment size. */
  lemma ShareBelowRate(w: nat, m: nat, r: nat)
    requires r > 0 && RateOf(w, m, r) >= 1
    ensures ShareOf(w, m, r) * w < 4 * (RateOf(w, m, r) * RateOf(w, m, r))
    ensures w * m % r == 0 ==> ShareOf(w, m, r) * w <= RateOf(w, m, r) * RateOf(w, m, r)
  {
    hide ShareOf;
    var d, tw := RateOf(w, m, r), ShareOf(w, m, r) * w;
    Floor(w * m, r);
    ShareAgainstRate(w, m, r);
    BelowTwice(w * m, d, r);
    SquareOf(2 * d, r);
    assert (r * r) * ((2 * d) * (2 * d)) == (r * r) * (4 * (d * d)) by { assert (2 * d) * (2 * d) == 4 * (d * d); }
    CancelStrict(r * r, tw, 4 * (d * d));
    if w * m % r == 0 {
      Exact(w * m, r);
      SquareOf(d, r);
      Cancel(r * r, tw, d * d);
    }
  }

  lemma Exact(x: nat, r: nat)
    requires r > 0 && x % r == 0
    ensures x == x / r * r
  {
    assert x == r * (x / r) + x % r;
  }

  /** The square of `x < (d + 1) r` with `d` at least 1. */
  lemma BelowTwice(x: nat, d: nat, r: nat)
    requires d >= 1 && x < r * d + r
    ensures x * x < (2 * d * r) * (2 * d * r)
  {
    assert d * r - r == (d - 1) * r >= 0;
    assert r * d == d * r;
    StrictSquare(x, 2 * d * r);
  }

  lemma SquareOf(d: nat, r: nat)
    ensures (d * r) * (d * r) == (r * r) * (d * d)
  {
  }

  /** From the bound on one flow to the bound on the factor. */
  lemma FactorBound(total: nat, best: nat, rate: nat, w: nat, d: nat, k: nat)
    requires 1 <= d <= rate && best * w <= k * (d * d) && total > 0
    ensures Scaled(total, best, rate) * w <= k * (A_SCALE * total)
    ensures best * w < k * (d * d) ==> Scaled(total, best, rate) * w < k * (A_SCALE * total)
  {
    hide Scaled;
    var a, at, rr := Scaled(total, best, rate), A_SCALE * total, rate * rate;
    ScaledSquare(total, best, rate);
    MultiplyMonotone(w, rr * a, at * best);
    assert w * (rr * a) == rr * (a * w) by { Swap(w, rr, a); }
    assert w * (at * best) == at * (best * w) by { Swap(w, at, best); }
    SquareMonotone(d, rate);
    MultiplyMonotone(k, d * d, rr);
    MultiplyMonotone(at, best * w, k * rr);
    assert at * (k * rr) == rr * (k * at) by { Rotate(at, k, rr); }
    assert rr > 0 by { SquareMonotone(1, rate); }
    Cancel(rr, a * w, k * at);
    if best * w < k * (d * d) {
      MultiplyMonotone(at, best * w + 1, k * rr);
      assert at * (best * w + 1) == at * (best * w) + at;
      CancelStrict(rr, a * w, k * at);
    }
  }

  lemma Rotate(a: nat, b: nat, c: nat)
    ensures a * (b * c) == c * (b * a)
  {
  }

  lemma ScaledSquare(total: nat, best: nat, rate: nat)
    requires rate > 0
    ensures (rate * rate) * Scaled(total, best, rate) <= (A_SCALE * total) * best
  {
    TwiceFloor(A_SCALE * total * best, rate);
  }

  /** A flow with a rate of zero has no share. */
  lemma SlowFlowHasNoShare(w: nat, m: nat, r: nat)
    requires r > 0 && RateOf(w, m, r) == 0
    ensures ShareOf(w, m, r) == 0
  {
    hide ShareOf;
    var tw := ShareOf(w, m, r) * w;
    Floor(w * m, r);
    StrictSquare(w * m, r);
    ShareAgainstRate(w, m, r);
    CancelStrict(r * r, tw, 1);
    NoWindowNoShare(w, m, r);
  }

  lemma NoWindowNoShare(w: nat, m: nat, r: nat)
    requires r > 0 && ShareOf(w, m, r) * w < 1
    ensures ShareOf(w, m, r) == 0
  {
    if w > 0 {
      hide ShareOf;
      MultiplyMonotone(ShareOf(w, m, r), 1, w);
    }
  }

  lemma {:induction false} TotalsTogether(flows: seq<Flow>)
    ensures TotalRate(flows) > 0 ==> TotalWindow(flows) > 0
    decreases |flows|
  {
    hide Rtt, Window, RateOf;
    if flows == [] {
    } else {
      var f := flows[|flows| - 1];
      TotalsTogether(flows[..|flows| - 1]);
      if Rate(f) > 0 {
        PositiveWindow(Window(f), f.mss, Rtt(f));
      }
    }
  }

  /** The factor, through both divisions and the zero fallback, times a window stays within `n` exactly if the best share is
      below the bound that the total rate sets. */
  lemma FactorIff(total: nat, best: nat, rate: nat, w: nat)
    requires rate > 0 && 0 < w <= total
    ensures var n, a := A_SCALE * total, Coupling(total, best, rate).value;
      a * w <= n <==> n * best < (n / w + 1) * (rate * rate)
  {
    hide Scaled;
    var n, scaled, rr := A_SCALE * total, Scaled(total, best, rate), rate * rate;
    MultiplyMonotone(A_SCALE, w, total);
    assert rr > 0 by { SquareMonotone(1, rate); }
    ScaledBelow(total, best, rate, n / w + 1);
    assert scaled < n / w + 1 <==> scaled <= n / w;
    BelowQuotient(scaled, n, w);
    BelowQuotient(A_SCALE, n, w);
  }

  /** Two divisions by the rate against one bound by its square. */
  lemma ScaledBelow(total: nat, best: nat, rate: nat, q: nat)
    requires rate > 0 && q > 0
    ensures Scaled(total, best, rate) < q <==> (A_SCALE * total) * best < q * (rate * rate)
  {
    var x := A_SCALE * total * best;
    BelowQuotient(q, x / rate, rate);
    BelowQuotient(q * rate, x, rate);
    assert q * rate * rate == q * (rate * rate) by { Regrouped(q, rate); }
  }

  lemma Regrouped(q: nat, rate: nat)
    ensures q * rate * rate == q * (rate * rate)
  {
  }

  /** The rounding of a flow's rate is what the bound can be missed by: share times window is below the square of
      the rate rounded up. */
  lemma ShareBelowNextRate(w: nat, m: nat, r: nat)
    requires r > 0
    ensures ShareOf(w, m, r) * w < (RateOf(w, m, r) + 1) * (RateOf(w, m, r) + 1)
  {
    hide ShareOf;
    var d, tw := RateOf(w, m, r), ShareOf(w, m, r) * w;
    Floor(w * m, r);
    ShareAgainstRate(w, m, r);
    assert w * m < (d + 1) * r by { assert (d + 1) * r == d * r + r && r * d == d * r; }
    StrictSquare(w * m, (d + 1) * r);
    SquareOf(d + 1, r);
    CancelStrict(r * r, tw, (d + 1) * (d + 1));
  }

  lemma FactorAgainstNext(total: nat, best: nat, rate: nat, w: nat, d: nat)
    requires rate > 0 && total > 0 && best * w < (d + 1) * (d + 1)
    ensures Scaled(total, best, rate) * w * (rate * rate) < A_SCALE * total * ((d + 1) * (d + 1))
  {
    hide Scaled;
    var a, at, rr, next := Scaled(total, best, rate), A_SCALE * total, rate * rate, (d + 1) * (d + 1);
    ScaledSquare(total, best, rate);
    MultiplyMonotone(w, rr * a, at * best);
    assert w * (rr * a) == rr * (a * w) by { Swap(w, rr, a); }
    assert w * (at * best) == at * (best * w) by { Swap(w, at, best); }
    MultiplyMonotone(at, best * w + 1, next);
    assert at * (best * w + 1) == at * (best * w) + at;
    assert rr * (a * w) == a * w * rr;
  }

  /** The coupled increase never gives the best flow much more than a single TCP flow would get. For a flow with the best
      share, the factor times its window is at most the scaled total window exactly if its share meets the stated bound;
      it does if the round trip divides its window times its segment size, or if its share times its window is at most
      the square of the total rate, which a second flow of some size makes true. If it does not, the excess is less than
      the square of its rate rounded up over the square of the total rate, and less than four. There is a factor
      exactly if some flow has a rate. */
  lemma CouplingBound(flows: seq<Flow>, k: nat)
    requires k < |flows| && Share(flows[k]) == BestShare(flows)
    ensures ComputeA(flows).Some? <==> TotalRate(flows) > 0
    ensures ComputeA(flows).Some? ==>
      var a, f, n := ComputeA(flows).value, flows[k], A_SCALE * TotalWindow(flows);
      && 0 < a && a * Window(f) < 4 * n
      && (Window(f) > 0 ==> (a * Window(f) <= n <==>
            n * Share(f) < (n / Window(f) + 1) * (TotalRate(flows) * TotalRate(flows))))
      && (a * Window(f) <= n || a * Window(f) * (TotalRate(flows) * TotalRate(flows)) < n * ((Rate(f) + 1) * (Rate(f) + 1)))
      && (Window(f) * f.mss % Rtt(f) == 0 ==> a * Window(f) <= n)
      && (Share(f) * Window(f) <= TotalRate(flows) * TotalRate(flows) ==> a * Window(f) <= n)
  {
    hide ShareOf, RateOf, Scaled, TotalWindow, TotalRate, BestShare, Rtt, Window;
    var f := flows[k];
    var w, m, r := Window(f), f.mss, Rtt(f);
    var total, best, rate := TotalWindow(flows), BestShare(flows), TotalRate(flows);
    Parts(flows, k);
    TotalsTogether(flows);
    MultiplyMonotone(A_SCALE, w, total);
    ShareBelowNextRate(w, m, r);
    if rate > 0 {
      FactorAgainstNext(total, best, rate, w, RateOf(w, m, r));
      if w > 0 {
        FactorIff(total, best, rate, w);
      }
    }
    if rate > 0 && best * w <= rate * rate {
      FactorBound(total, best, rate, w, rate, 1);
    }
    if RateOf(w, m, r) >= 1 {
      ShareBelowRate(w, m, r);
      PositiveWindow(w, m, r);
      FactorBound(total, best, rate, w, RateOf(w, m, r), 4);
      if w * m % r == 0 {
        FactorBound(total, best, rate, w, RateOf(w, m, r), 1);
      }
    } else if rate > 0 {
      SlowFlowHasNoShare(w, m, r);
      NoShareNoFactor(total, rate);
    }
  }

  lemma NoShareNoFactor(total: nat, rate: nat)
    requires rate > 0
    ensures Scaled(total, 0, rate) == 0
  {
  }

  lemma PositiveWindow(w: nat, m: nat, r: nat)
    requires r > 0 && RateOf(w, m, r) >= 1
    ensures w > 0
  {
    Floor(w * m, r);
  }

  /** With windows and round trips as they occur, rounding does exceed it: one segment of 1500 bytes in flight and a round
      trip of about 0.58 seconds give a single flow a factor above one. */
  lemma RoundingExceedsBound() returns (f: Flow)
    ensures f == Flow(1500, 1500, false, 1500, 579_900_000_000)
    ensures ComputeA([f]) == Some(531) && 531 * Window(f) > A_SCALE * TotalWindow([f])
  {
    f := Flow(1500, 1500, false, 1500, 579_900_000_000);
    OneFlow(f);
    assert Rtt(f) == 57990;
    assert RateOf(1500, 1500, 57990) == 38 && ShareOf(1500, 1500, 57990) == 1;
    assert Scaled(1500, 1, 38) == 531;
  }

  /** A single flow is not coupled: without roundings its factor is one. */
  lemma SingleFlowIsTcp(f: Flow)
    requires Rate(f) >= 1 && Window(f) * f.mss % Rtt(f) == 0 && Rate(f) * f.mss % Rtt(f) == 0
    ensures ComputeA([f]) == Some(A_SCALE)
  {
    hide Rtt, Window, ShareOf, RateOf, Scaled;
    var w, m, r := Window(f), f.mss, Rtt(f);
    var d, t := RateOf(w, m, r), ShareOf(w, m, r);
    ExactShare(w, m, r);
    ScaledExact(w, t, d);
    OneFlow(f);
  }

  lemma OneFlow(f: Flow)
    ensures TotalWindow([f]) == Window(f) && TotalRate([f]) == Rate(f) && BestShare([f]) == Share(f)
  {
    hide Window, Rate, Share;
    assert [f][..0] == [];
    assert TotalWindow([]) == TotalRate([]) == BestShare([]) == 0;
  }

  lemma ExactShare(w: nat, m: nat, r: nat)
    requires r > 0 && w * m % r == 0 && RateOf(w, m, r) * m % r == 0
    ensures w * ShareOf(w, m, r) == RateOf(w, m, r) * RateOf(w, m, r)
  {
    var d, t := RateOf(w, m, r), ShareOf(w, m, r);
    Exact(w * m, r);
    Exact(d * m, r);
    assert w * m * m == (d * m) * r by { Regroup(d, r, m); }
    DivideExact(d * m, r);
    assert t * r == d * m;
    ExactProduct(w, m, r, d, t);
  }

  lemma ExactProduct(w: nat, m: nat, r: nat, d: nat, t: nat)
    requires r > 0 && w * m == d * r && t * r == d * m
    ensures w * t == d * d
  {
    assert (w * t) * r == w * (t * r);
    assert w * (d * m) == (w * m) * d;
    assert (d * r) * d == (d * d) * r;
    CancelEqual(r, w * t, d * d);
  }

  lemma Regroup(a: nat, b: nat, c: nat)
    ensures a * b * c == (a * c) * b
  {
  }

  lemma ScaledExact(w: nat, t: nat, d: nat)
    requires d > 0 && w * t == d * d
    ensures Scaled(w, t, d) == A_SCALE
  {
    assert A_SCALE * w * t == A_SCALE * (w * t) == (A_SCALE * d) * d;
    DivideExact(A_SCALE * d, d);
    DivideExact(A_SCALE, d);
  }

  lemma DivideExact(x: nat, r: nat)
    requires r > 0
    ensures x * r / r == x
  {
    var q := x * r / r;
    Floor(x * r, r);
    assert (x - q) * r == x * r - q * r;
    assert x - q >= 1 ==> (x - q) * r >= r;
    assert q - x >= 1 ==> (q - x) * r >= r;
  }

  lemma CancelEqual(r: nat, x: int, y: int)
    requires r > 0 && x * r == y * r
    ensures x == y
  {
    assert (x - y) * r == 0;
    assert x - y >= 1 ==> (x - y) * r >= r;
    assert y - x >= 1 ==> (y - x) * r >= r;
  }
}
