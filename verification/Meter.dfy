/** A token bucket: credit in bytes grows with time at a rate that a penalty slows, and a packet is green if the
    credit covers it. */
module Meters {
  import opened Basics
  import E = EventLists

  datatype Config = Config(maxSize: nat, psPerByte: nat, dataPacketSize: nat)
  {
    predicate Valid() { psPerByte > 0 }
  }

  datatype Bucket = Bucket(credit: int, lastUpdate: nat, endPenalty: nat, endHalfPenalty: nat)

  function InitBucket(c: Config): Bucket { Bucket(c.maxSize, 0, 0, 0) }

  /** Picoseconds per byte of credit: four times slower during the penalty, twice during the half penalty. */
  function Rate(c: Config, b: Bucket, now: nat): nat {
    if now < b.endPenalty then 4 * c.psPerByte
    else if now < b.endHalfPenalty then 2 * c.psPerByte
    else c.psPerByte
  }

  /** Whole bytes only: the rest of the time is forgotten. */
  function WholeBytes(time: nat, rate: nat): nat
    requires rate > 0
  {
    time / rate
  }

  function Earned(c: Config, b: Bucket, now: nat): nat
    requires c.Valid() && b.lastUpdate <= now
  {
    WholeBytes(now - b.lastUpdate, Rate(c, b, now))
  }

  function Refill(c: Config, b: Bucket, now: nat): int
    requires c.Valid() && b.lastUpdate <= now
  {
    var credit := b.credit + Earned(c, b, now);
    if credit >= c.maxSize then c.maxSize else credit
  }

  /** The second result is whether the packet is green. */
  function Execute(c: Config, b: Bucket, now: nat, size: nat): (Bucket, bool)
    requires c.Valid() && b.lastUpdate <= now
  {
    var credit := Refill(c, b, now);
    if size > credit then (b.(credit := credit, lastUpdate := now), false)
    else (b.(credit := credit - size, lastUpdate := now), true)
  }

  function TrimPenalty(c: Config, b: Bucket, now: nat, n: nat): Bucket {
    Bucket(0, now, now + n * (c.dataPacketSize * c.psPerByte), now + 4 * n * (c.dataPacketSize * c.psPerByte))
  }

  datatype Op = Packet(at: nat, size: nat) | Trim(at: nat, n: nat)

  /** Calls come in order of time, none before `from`. */
  ghost predicate InOrder(ops: seq<Op>, from: nat) {
    && (ops != [] ==> from <= ops[0].at)
    && (forall i :: 0 < i < |ops| ==> ops[i-1].at <= ops[i].at)
  }

  function Apply(c: Config, b: Bucket, op: Op): Bucket
    requires c.Valid() && b.lastUpdate <= op.at
  {
    if op.Packet? then Execute(c, b, op.at, op.size).0 else TrimPenalty(c, b, op.at, op.n)
  }

  function GreenBytes(c: Config, b: Bucket, op: Op): nat
    requires c.Valid() && b.lastUpdate <= op.at
  {
    if op.Packet? && Execute(c, b, op.at, op.size).1 then op.size else 0
  }

  function Run(c: Config, b: Bucket, ops: seq<Op>): Bucket
    requires c.Valid() && InOrder(ops, b.lastUpdate)
    decreases |ops|
  {
    if ops == [] then b else Run(c, Apply(c, b, ops[0]), ops[1..])
  }

  function Green(c: Config, b: Bucket, ops: seq<Op>): nat
    requires c.Valid() && InOrder(ops, b.lastUpdate)
    decreases |ops|
  {
    if ops == [] then 0 else GreenBytes(c, b, ops[0]) + Green(c, Apply(c, b, ops[0]), ops[1..])
  }

  /** Every packet of the run is metered at `rate` or slower. */
  ghost predicate RatesAtLeast(c: Config, b: Bucket, ops: seq<Op>, rate: nat)
    requires c.Valid() && InOrder(ops, b.lastUpdate)
    decreases |ops|
  {
    ops != [] ==>
      (ops[0].Packet? ==> Rate(c, b, ops[0].at) >= rate) && RatesAtLeast(c, Apply(c, b, ops[0]), ops[1..], rate)
  }

  // ---------------------------------------------------------------- conformance

  /** Whole bytes earned, charged at a rate no faster than theirs, take no more time than has passed. */
  lemma EarnedInTime(delta: nat, rate: nat, slowest: nat)
    requires 0 < rate <= slowest
    ensures delta / slowest >= 0 && rate * (delta / slowest) <= delta
  {
    Floor(delta, slowest);
    MultiplyMonotone(delta / slowest, rate, slowest);
  }

  lemma StepConforms(c: Config, b: Bucket, op: Op, rate: nat)
    requires c.Valid() && b.lastUpdate <= op.at && 0 <= b.credit <= c.maxSize
    requires 0 < rate && (op.Packet? ==> Rate(c, b, op.at) >= rate)
    ensures var b' := Apply(c, b, op);
      && 0 <= b'.credit <= c.maxSize
      && rate * (GreenBytes(c, b, op) + b'.credit) <= rate * b.credit + (op.at - b.lastUpdate)
  {
    hide Execute, TrimPenalty, Rate, Earned;
    if op.Packet? {
      ExecuteConforms(c, b, op);
      EarnedPaid(c, b, op.at, rate);
      MoreCredit(rate, GreenBytes(c, b, op) + Apply(c, b, op).credit, b.credit, Earned(c, b, op.at));
    } else {
      TrimConforms(c, b, op);
      MultiplyMonotone(rate, 0, b.credit);
    }
  }

  lemma ExecuteConforms(c: Config, b: Bucket, op: Op)
    requires c.Valid() && op.Packet? && b.lastUpdate <= op.at && 0 <= b.credit <= c.maxSize
    ensures var b' := Apply(c, b, op);
      && 0 <= b'.credit <= c.maxSize
      && GreenBytes(c, b, op) + b'.credit <= b.credit + Earned(c, b, op.at)
  {
    hide Earned;
  }

  lemma TrimConforms(c: Config, b: Bucket, op: Op)
    requires c.Valid() && op.Trim? && b.lastUpdate <= op.at
    ensures Apply(c, b, op).credit == 0 && GreenBytes(c, b, op) == 0
  {
  }

  lemma EarnedPaid(c: Config, b: Bucket, now: nat, rate: nat)
    requires c.Valid() && b.lastUpdate <= now && 0 < rate <= Rate(c, b, now)
    ensures rate * Earned(c, b, now) <= now - b.lastUpdate
  {
    EarnedInTime(now - b.lastUpdate, rate, Rate(c, b, now));
  }

  lemma MoreCredit(rate: nat, x: int, credit: int, earned: int)
    requires x <= credit + earned
    ensures rate * x <= rate * credit + rate * earned
  {
    MultiplyMonotone(rate, x, credit + earned);
    assert rate * (credit + earned) == rate * credit + rate * earned;
  }

  /** Over any run at a rate or slower, what passes green and what credit is left is paid for by the initial
      credit and the time that has passed, and the credit stays within the bucket. */
  lemma {:induction false} ConformsAtRate(c: Config, b: Bucket, ops: seq<Op>, rate: nat)
    requires c.Valid() && InOrder(ops, b.lastUpdate) && 0 <= b.credit <= c.maxSize
    requires rate > 0 && RatesAtLeast(c, b, ops, rate)
    ensures 0 <= Run(c, b, ops).credit <= c.maxSize && Run(c, b, ops).lastUpdate >= b.lastUpdate
    ensures rate * (Green(c, b, ops) + Run(c, b, ops).credit) <= rate * b.credit + (Run(c, b, ops).lastUpdate - b.lastUpdate)
    decreases |ops|
  {
    if ops == [] {
    } else {
      var b' := Apply(c, b, ops[0]);
      StepConforms(c, b, ops[0], rate);
      ConformsAtRate(c, b', ops[1..], rate);
      var first, rest, last := GreenBytes(c, b, ops[0]), Green(c, b', ops[1..]), Run(c, b', ops[1..]);
      assert rate * (first + rest + last.credit) == rate * (first + b'.credit) + rate * (rest + last.credit) - rate * b'.credit;
    }
  }

  lemma {:induction false} BaseRate(c: Config, b: Bucket, ops: seq<Op>)
    requires c.Valid() && InOrder(ops, b.lastUpdate)
    ensures RatesAtLeast(c, b, ops, c.psPerByte)
    decreases |ops|
  {
    if ops == [] {
    } else {
      BaseRate(c, Apply(c, b, ops[0]), ops[1..]);
    }
  }

  lemma {:induction false} PenaltyRate(c: Config, b: Bucket, ops: seq<Op>)
    requires c.Valid() && InOrder(ops, b.lastUpdate)
    requires forall i :: 0 <= i < |ops| ==> ops[i].Packet? && ops[i].at < b.endPenalty
    ensures RatesAtLeast(c, b, ops, 4 * c.psPerByte)
    decreases |ops|
  {
    if ops == [] {
    } else {
      PenaltyRate(c, Apply(c, b, ops[0]), ops[1..]);
    }
  }

  lemma {:induction false} HalfPenaltyRate(c: Config, b: Bucket, ops: seq<Op>)
    requires c.Valid() && InOrder(ops, b.lastUpdate)
    requires forall i :: 0 <= i < |ops| ==> ops[i].Packet? && ops[i].at < b.endHalfPenalty
    ensures RatesAtLeast(c, b, ops, 2 * c.psPerByte)
    decreases |ops|
  {
    if ops == [] {
    } else {
      HalfPenaltyRate(c, Apply(c, b, ops[0]), ops[1..]);
    }
  }

  lemma BytesInTime(green: nat, credit: nat, elapsed: nat, rate: nat)
    requires 0 < rate && rate * green <= rate * credit + elapsed
    ensures green <= credit + elapsed / rate
  {
    var q := elapsed / rate;
    assert elapsed < rate * (q + 1);
    assert green >= credit + q + 1 ==> rate * green >= rate * (credit + q + 1) == rate * credit + rate * (q + 1);
  }

  /** Token bucket conformance, with penalties at any times: the green bytes of a run are covered by the initial
      credit and the bytes the elapsed time is worth. */
  lemma Conformance(c: Config, b: Bucket, ops: seq<Op>)
    requires c.Valid() && InOrder(ops, b.lastUpdate) && 0 <= b.credit <= c.maxSize
    ensures Green(c, b, ops) <= b.credit + (Run(c, b, ops).lastUpdate - b.lastUpdate) / c.psPerByte
    ensures Run(c, b, ops).lastUpdate >= b.lastUpdate && 0 <= Run(c, b, ops).credit <= c.maxSize
  {
    BaseRate(c, b, ops);
    ConformsAtRate(c, b, ops, c.psPerByte);
    CreditIsExtra(c.psPerByte, Green(c, b, ops), Run(c, b, ops).credit);
    BytesInTime(Green(c, b, ops), b.credit, Run(c, b, ops).lastUpdate - b.lastUpdate, c.psPerByte);
  }

  lemma CreditIsExtra(rate: nat, green: nat, credit: nat)
    ensures rate * green <= rate * (green + credit)
  {
    assert rate * (green + credit) == rate * green + rate * credit;
  }

  /** After a penalty starts the bucket is empty, and passes at most a quarter of the rate while it lasts and
      half of it until the half penalty ends. */
  lemma PenaltyConformance(c: Config, b: Bucket, now: nat, n: nat, ops: seq<Op>)
    requires c.Valid() && b.lastUpdate <= now && InOrder(ops, now)
    requires forall i :: 0 <= i < |ops| ==> ops[i].Packet? && ops[i].at < TrimPenalty(c, b, now, n).endHalfPenalty
    ensures var b' := TrimPenalty(c, b, now, n);
      && Green(c, b', ops) <= (Run(c, b', ops).lastUpdate - now) / (2 * c.psPerByte)
      && ((forall i :: 0 <= i < |ops| ==> ops[i].at < b'.endPenalty) ==>
            Green(c, b', ops) <= (Run(c, b', ops).lastUpdate - now) / (4 * c.psPerByte))
  {
    var b' := TrimPenalty(c, b, now, n);
    HalfPenaltyRate(c, b', ops);
    AtRate(c, b', ops, 2 * c.psPerByte);
    if forall i :: 0 <= i < |ops| ==> ops[i].at < b'.endPenalty {
      PenaltyRate(c, b', ops);
      AtRate(c, b', ops, 4 * c.psPerByte);
    }
  }

  lemma AtRate(c: Config, b: Bucket, ops: seq<Op>, rate: nat)
    requires c.Valid() && InOrder(ops, b.lastUpdate) && 0 <= b.credit <= c.maxSize
    requires rate > 0 && RatesAtLeast(c, b, ops, rate)
    ensures Green(c, b, ops) <= b.credit + (Run(c, b, ops).lastUpdate - b.lastUpdate) / rate
  {
    ConformsAtRate(c, b, ops, rate);
    CreditIsExtra(rate, Green(c, b, ops), Run(c, b, ops).credit);
    BytesInTime(Green(c, b, ops), b.credit, Run(c, b, ops).lastUpdate - b.lastUpdate, rate);
  }

  // ---------------------------------------------------------------- verdicts

  /** Picoseconds per byte of credit, in multiples of the link's. */
  function Slowdown(b: Bucket, now: nat): nat {
    if now < b.endPenalty then 4 else if now < b.endHalfPenalty then 2 else 1
  }

  /** A packet is green exactly if it is no larger than the bucket and the time since the last call is worth, at the
      rate of the moment, the bytes of it that the credit does not cover; it is then charged in full, and a red one not at all. */
  lemma GreenIff(c: Config, b: Bucket, now: nat, size: nat)
    requires c.Valid() && b.lastUpdate <= now
    ensures var (b', green) := Execute(c, b, now, size);
      && (green <==> (size <= c.maxSize &&
            (size <= b.credit || (size - b.credit) * (Slowdown(b, now) * c.psPerByte) <= now - b.lastUpdate)))
      && b'.credit + (if green then size else 0) == Refill(c, b, now)
      && b'.lastUpdate == now && b'.endPenalty == b.endPenalty && b'.endHalfPenalty == b.endHalfPenalty
  {
    hide Earned;
    EarnedAtLeast(c, b, now, size - b.credit);
  }

  lemma EarnedAtLeast(c: Config, b: Bucket, now: nat, missing: int)
    requires c.Valid() && b.lastUpdate <= now
    ensures missing <= Earned(c, b, now) <==> missing * (Slowdown(b, now) * c.psPerByte) <= now - b.lastUpdate
  {
    var rate := Slowdown(b, now) * c.psPerByte;
    assert rate == Rate(c, b, now);
    BelowQuotient(missing, now - b.lastUpdate, rate);
  }

  /** A penalty of `n` packets empties the bucket and slows it to a quarter for the time the link takes for `n` of them, and
      to a half until it would have taken four times as many: the next packet is green exactly if that pays for it. */
  lemma PenaltyDelays(c: Config, b: Bucket, now: nat, n: nat, at: nat, size: nat)
    requires c.Valid() && now <= at && size > 0
    ensures var drain := n * (c.dataPacketSize * c.psPerByte);
      var slow := if at - now < drain then 4 else if at - now < 4 * drain then 2 else 1;
      Execute(c, TrimPenalty(c, b, now, n), at, size).1 <==> size <= c.maxSize && size * (slow * c.psPerByte) <= at - now
  {
    hide Execute;
    var drain := n * (c.dataPacketSize * c.psPerByte);
    assert 4 * n * (c.dataPacketSize * c.psPerByte) == 4 * drain;
    GreenIff(c, TrimPenalty(c, b, now, n), at, size);
  }

  // ---------------------------------------------------------------- lost fractions

  /** Each call forgets the fraction of a byte earned since the last one: packets that come closer together than
      the time of one byte earn nothing, however long it goes on, so all of them together pass no more than the
      credit there was. */
  lemma {:induction false} FrequentCallsEarnNothing(c: Config, b: Bucket, ops: seq<Op>)
    requires c.Valid() && InOrder(ops, b.lastUpdate) && 0 <= b.credit <= c.maxSize
    requires forall i :: 0 <= i < |ops| ==> ops[i].Packet?
    requires ops != [] ==> ops[0].at < b.lastUpdate + c.psPerByte
    requires forall i :: 0 < i < |ops| ==> ops[i].at < ops[i-1].at + c.psPerByte
    ensures Green(c, b, ops) + Run(c, b, ops).credit == b.credit
    decreases |ops|
  {
    if ops == [] {
    } else {
      NothingEarned(ops[0].at - b.lastUpdate, Rate(c, b, ops[0].at));
      var b' := Apply(c, b, ops[0]);
      forall i | 0 < i < |ops[1..]| ensures ops[1..][i].at < ops[1..][i-1].at + c.psPerByte {
        assert ops[1..][i] == ops[i+1] && ops[1..][i-1] == ops[i];
      }
      assert ops[1..] != [] ==> ops[1..][0] == ops[1];
      FrequentCallsEarnNothing(c, b', ops[1..]);
    }
  }

  lemma NothingEarned(delta: nat, rate: nat)
    requires delta < rate
    ensures delta / rate == 0
  {
  }

  /** The picoseconds that the calls of a run forget. */
  function Forgotten(c: Config, b: Bucket, ops: seq<Op>): nat
    requires c.Valid() && InOrder(ops, b.lastUpdate)
    decreases |ops|
  {
    if ops == [] then 0
    else (ops[0].at - b.lastUpdate) % c.psPerByte + Forgotten(c, Apply(c, b, ops[0]), ops[1..])
  }

  /** A run of packets outside any penalty in which the bucket never overflows. */
  ghost predicate Unhindered(c: Config, b: Bucket, ops: seq<Op>)
    requires c.Valid() && InOrder(ops, b.lastUpdate)
    decreases |ops|
  {
    ops != [] ==>
      && ops[0].Packet? && ops[0].at >= b.endPenalty && ops[0].at >= b.endHalfPenalty
      && b.credit + Earned(c, b, ops[0].at) <= c.maxSize
      && Unhindered(c, Apply(c, b, ops[0]), ops[1..])
  }

  lemma UnhinderedStep(c: Config, b: Bucket, op: Op)
    requires c.Valid() && b.lastUpdate <= op.at && op.Packet? && op.at >= b.endPenalty && op.at >= b.endHalfPenalty
    requires b.credit + Earned(c, b, op.at) <= c.maxSize
    ensures GreenBytes(c, b, op) + Apply(c, b, op).credit == b.credit + WholeBytes(op.at - b.lastUpdate, c.psPerByte)
  {
    hide WholeBytes;
  }

  /** All the time that passes is either earned or forgotten. */
  lemma {:induction false} EarnedOrForgotten(c: Config, b: Bucket, ops: seq<Op>)
    requires c.Valid() && InOrder(ops, b.lastUpdate) && Unhindered(c, b, ops)
    ensures c.psPerByte * (Green(c, b, ops) + Run(c, b, ops).credit - b.credit) + Forgotten(c, b, ops) ==
      Run(c, b, ops).lastUpdate - b.lastUpdate
    decreases |ops|
  {
    hide Apply, GreenBytes, Earned, WholeBytes;
    if ops == [] {
    } else {
      var b', ps, gap := Apply(c, b, ops[0]), c.psPerByte, ops[0].at - b.lastUpdate;
      PacketTime(c, b, ops[0]);
      UnhinderedStep(c, b, ops[0]);
      EarnedOrForgotten(c, b', ops[1..]);
      WholeAndRest(gap, ps);
      var bytes, rest := WholeBytes(gap, ps), Green(c, b', ops[1..]) + Run(c, b', ops[1..]).credit - b'.credit;
      assert Green(c, b, ops) + Run(c, b, ops).credit - b.credit == bytes + rest;
      assert ps * (bytes + rest) == ps * bytes + ps * rest by { Distribute(ps, bytes, rest); }
    }
  }

  lemma PacketTime(c: Config, b: Bucket, op: Op)
    requires c.Valid() && b.lastUpdate <= op.at && op.Packet?
    ensures Apply(c, b, op).lastUpdate == op.at
  {
  }

  lemma WholeAndRest(time: nat, rate: nat)
    requires rate > 0
    ensures rate * WholeBytes(time, rate) + time % rate == time
  {
  }

  lemma Distribute(k: int, x: int, y: int)
    ensures k * (x + y) == k * x + k * y
  {
  }

  /** Exactly when such a run earns all the bytes that the elapsed time is worth: the fractions forgotten at its calls add up to
      less than the time of one byte. */
  lemma EarnsAllIff(c: Config, b: Bucket, ops: seq<Op>)
    requires c.Valid() && InOrder(ops, b.lastUpdate) && Unhindered(c, b, ops)
    ensures Run(c, b, ops).lastUpdate >= b.lastUpdate
    ensures Green(c, b, ops) + Run(c, b, ops).credit - b.credit == (Run(c, b, ops).lastUpdate - b.lastUpdate) / c.psPerByte <==>
      Forgotten(c, b, ops) < c.psPerByte
  {
    hide Unhindered, Forgotten, Green, Run;
    TimeAdvances(c, b, ops);
    EarnedOrForgotten(c, b, ops);
    QuotientIff(Run(c, b, ops).lastUpdate - b.lastUpdate, c.psPerByte,
      Green(c, b, ops) + Run(c, b, ops).credit - b.credit, Forgotten(c, b, ops));
  }

  lemma {:induction false} TimeAdvances(c: Config, b: Bucket, ops: seq<Op>)
    requires c.Valid() && InOrder(ops, b.lastUpdate)
    ensures Run(c, b, ops).lastUpdate >= b.lastUpdate
    decreases |ops|
  {
    if ops == [] {
    } else {
      TimeAdvances(c, Apply(c, b, ops[0]), ops[1..]);
    }
  }

  lemma QuotientIff(time: nat, rate: nat, bytes: int, rest: nat)
    requires rate > 0 && rate * bytes + rest == time
    ensures bytes == time / rate <==> rest < rate
  {
    BelowQuotient(bytes, time, rate);
    BelowQuotient(bytes + 1, time, rate);
    assert bytes * rate == rate * bytes && (bytes + 1) * rate == bytes * rate + rate;
  }

  // ---------------------------------------------------------------- the object

  class Meter {
    const config: Config
    const events: E.EventList
    var credit: int
    var lastUpdate: nat
    var endPenalty: nat
    var endHalfPenalty: nat

    function View(): Bucket
      reads this
    {
      Bucket(credit, lastUpdate, endPenalty, endHalfPenalty)
    }

    constructor (config: Config, events: E.EventList)
      ensures this.config == config && this.events == events && View() == InitBucket(config)
    {
      this.config, this.events := config, events;
      credit, lastUpdate, endPenalty, endHalfPenalty := config.maxSize, 0, 0, 0;
    }

    /** The clock does not go back between calls. */
    method ExecutePacket(size: nat) returns (green: bool)
      requires config.Valid() && lastUpdate <= events.lastTime
      modifies this
      ensures (View(), green) == Execute(config, old(View()), events.lastTime, size)
    {
      var serviceRate := config.psPerByte;
      if events.lastTime < endPenalty {
        serviceRate := serviceRate * 4;
      } else if events.lastTime < endHalfPenalty {
        serviceRate := serviceRate * 2;
      }
      var delta := events.lastTime - lastUpdate;
      credit := credit + delta / serviceRate;
      if credit >= config.maxSize {
        credit := config.maxSize;
      }
      lastUpdate := events.lastTime;
      if size > credit {
        return false;
      }
      credit := credit - size;
      return true;
    }

    method TrimPesiTime(n: nat)
      modifies this
      ensures View() == TrimPenalty(config, old(View()), events.lastTime, n)
    {
      var drain := config.dataPacketSize * config.psPerByte;
      endPenalty := events.lastTime + n * drain;
      endHalfPenalty := events.lastTime + 4 * n * drain;
      lastUpdate := events.lastTime;
      credit := 0;
    }
  }
}
