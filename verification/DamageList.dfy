/** Damage over time: how an amount of damage is spread over a falling list of hits. */
module DamageList {

  const EVENT_CREATURE_THINK_INTERVAL := 1000

  function AbsReal(x: real): real {
    if x < 0.0 then -x else x
  }

  function Abs(n: int): nat {
    if n < 0 then -n else n
  }

  function Total(list: seq<int>): int {
    if list == [] then 0 else Total(list[..|list| - 1]) + list[|list| - 1]
  }

  /** 1 + 2 + ... + n */
  function Triangle(n: int): int {
    n * (n + 1) / 2
  }

  /** The condition of the inner loop: one more hit brings the sum closer, in proportion, to what it
      should be by now.  A division by zero gives infinity on both sides. */
  predicate Closer(sum: int, i: int, med: int) {
    med != 0 &&
    AbsReal(1.0 - (sum + i) as real / med as real) < AbsReal(1.0 - sum as real / med as real)
  }

  lemma Scaled(d: real, med: real)
    requires med > 0.0
    ensures AbsReal(d / med) * med == AbsReal(d)
  {
    var q := d / med;
    assert q * med == d;
    Sign(q, med);
  }

  lemma Cancel(a: real, b: real, m: real)
    requires m > 0.0
    ensures a == b <==> a * m == b * m
    ensures a < b <==> a * m < b * m
  {
    assert (a - b) * m == a * m - b * m;
    Sign(a - b, m);
  }

  lemma Sign(d: real, m: real)
    requires m > 0.0
    ensures (d > 0.0 <==> d * m > 0.0) && (d < 0.0 <==> d * m < 0.0)
  {
  }

  lemma Gap(x: real, med: real)
    requires med > 0.0
    ensures 1.0 - x / med == (med - x) / med
  {
    var q, p := x / med, (med - x) / med;
    assert q * med == x && p * med == med - x;
    assert (1.0 - q) * med == med - q * med;
    Cancel(1.0 - q, p, med);
  }

  lemma Whichever(d: int, i: int)
    requires i > 0
    ensures AbsReal((d - i) as real) < AbsReal(d as real) <==> 2 * d > i
  {
  }

  /** The same without divisions: more than half a hit is missing. */
  lemma CloserMeans(sum: int, i: int, med: int)
    requires sum >= 0 && i > 0 && med >= 0
    ensures Closer(sum, i, med) <==> 2 * (med - sum) > i
  {
    hide AbsReal;
    if med > 0 {
      var m := med as real;
      var x1, x2 := (sum + i) as real, sum as real;
      Gap(x1, m);
      Gap(x2, m);
      Scaled(m - x1, m);
      Scaled(m - x2, m);
      Cancel(AbsReal((m - x1) / m), AbsReal((m - x2) / m), m);
      Whichever(med - sum, i);
      assert m - x1 == (med - sum - i) as real && m - x2 == (med - sum) as real;
    }
  }

  ghost predicate Falling(list: seq<int>) {
    forall j, k :: 0 <= j < k < |list| ==> list[j] >= list[k]
  }

  lemma TriangleStep(i: int)
    requires i >= 1
    ensures Triangle(i) == Triangle(i - 1) + i && 2 * Triangle(i) == i * (i + 1)
    ensures Triangle(i - 1) >= 0
  {
    Even(i);
    Even(i - 1);
    Twice(i);
    Positive(i - 1, i, 1);
  }

  lemma {:induction false} Even(i: int)
    requires i >= 0
    ensures i * (i + 1) % 2 == 0
  {
    if i > 0 {
      Even(i - 1);
      Twice(i);
    }
  }

  lemma Twice(i: int)
    ensures i * (i + 1) == (i - 1) * i + 2 * i
  {
  }

  /** What is still missing of the whole amount when the sum should be `med`. */
  lemma Missing(amount: int, start: int, i: int)
    requires 1 <= i <= start && amount >= Triangle(start)
    ensures var med := (start + 1 - i) * amount / start; 2 * (amount - med) >= (i - 1) * (i + 1)
  {
    hide Triangle;
    TriangleStep(start);
    var med := (start + 1 - i) * amount / start;
    Quotient((start + 1 - i) * amount, start);
    Behind(amount, start, start + 1 - i, med);
    Scale(i - 1, start, amount);
    Shrink(start, 2 * (amount - med), (i - 1) * (start + 1));
    Widen(i - 1, start + 1, i + 1);
  }

  lemma Quotient(p: int, start: int)
    requires start >= 1
    ensures start * (p / start) <= p
  {
  }

  lemma Behind(amount: int, start: int, n: int, med: int)
    requires start * med <= n * amount
    ensures start * (2 * (amount - med)) >= 2 * ((start - n) * amount)
  {
    Minus(amount, med, start);
    Minus(start, n, amount);
    Minus(2 * amount, 2 * med, start);
  }

  lemma Minus(a: int, b: int, k: int)
    ensures k * (a - b) == k * a - k * b && (a - b) * k == a * k - b * k
  {
  }

  lemma Scale(k: int, start: int, amount: int)
    requires k >= 0 && 2 * amount >= start * (start + 1)
    ensures 2 * (k * amount) >= start * (k * (start + 1))
  {
    assert k * (2 * amount) >= k * (start * (start + 1));
    assert k * (start * (start + 1)) == start * (k * (start + 1));
  }

  lemma Shrink(s: int, a: int, b: int)
    requires s >= 1 && s * a >= s * b
    ensures a >= b
  {
  }

  lemma Widen(k: int, a: int, b: int)
    requires k >= 0 && a >= b
    ensures k * a >= k * b
  {
  }

  lemma TotalPush(list: seq<int>, v: int)
    ensures Total(list + [v]) == Total(list) + v
  {
    assert (list + [v])[..|list|] == list;
  }

  lemma FallingPush(list: seq<int>, v: int)
    requires Falling(list) && forall w :: w in list ==> w >= v
    ensures Falling(list + [v])
  {
    forall k | 0 <= k < |list|
      ensures list[k] >= v
    {
      assert list[k] in list;
    }
  }

  /** `generateDamageList`: every hit from the first down to one appears, none is followed by a larger
      one, and together they make up at least the amount; exactly the amount if and only if the amount
      suffices for one hit of each size. */
  method GenerateDamageList(drawn: int, start: int) returns (list: seq<int>)
    ensures Falling(list) && forall v :: v in list <==> 1 <= v <= start
    ensures start >= 1 ==> Total(list) >= Abs(drawn)
    ensures start >= 1 ==> (Total(list) == Abs(drawn) <==> Abs(drawn) >= Triangle(start))
  {
    hide Closer, Triangle;
    var amount := Abs(drawn);
    var sum := 0;
    list := [];
    if start <= 0 {
      return;
    }
    TriangleStep(start);
    NoTriangle();
    var i := start;
    while i > 0
      invariant 0 <= i <= start && sum == Total(list) >= 0
      invariant Falling(list) && forall v :: v in list <==> i < v <= start
      invariant sum >= Triangle(start) - Triangle(i)
      invariant amount >= Triangle(start) ==> sum + Triangle(i) <= amount
      invariant i == 0 ==> sum >= amount
    {
      var n := start + 1 - i;
      var med := n * amount / start;
      TriangleStep(i);
      list, sum := Hits(list, sum, i, med, amount, start);
      if i == 1 {
        Whole(start, amount);
      }
      i := i - 1;
    }
  }

  lemma NoTriangle()
    ensures Triangle(0) == 0
  {
  }

  /** The inner loop: hits of one size until the sum is as close as it gets. */
  method Hits(before: seq<int>, total: int, i: int, med: int, amount: nat, start: int) returns (list: seq<int>, sum: int)
    requires 1 <= i <= start && med == (start + 1 - i) * amount / start && total == Total(before) >= 0
    requires Falling(before) && forall v :: v in before <==> i < v <= start
    ensures sum == Total(list) >= total && 2 * (med - sum) <= i && sum >= total + i
    ensures Falling(list) && forall v :: v in list <==> i <= v <= start
    ensures amount >= Triangle(start) && total + Triangle(i) <= amount ==> sum + Triangle(i - 1) <= amount
  {
    hide Closer, Triangle, Total, Falling;
    Positive(start + 1 - i, amount, start);
    TriangleStep(i);
    if amount >= Triangle(start) {
      Missing(amount, start, i);
    }
    Square(i);
    TotalPush(before, i);
    FallingPush(before, i);
    list := before + [i];
    sum := total + i;
    CloserMeans(sum, i, med);
    while Closer(sum, i, med)
      invariant sum == Total(list) >= total + i && (Closer(sum, i, med) <==> 2 * (med - sum) > i)
      invariant Falling(list) && (forall v :: v in list <==> i <= v <= start)
      invariant amount >= Triangle(start) && total + Triangle(i) <= amount ==> sum + Triangle(i - 1) <= amount
      decreases med - sum
    {
      TotalPush(list, i);
      FallingPush(list, i);
      list := list + [i];
      sum := sum + i;
      CloserMeans(sum, i, med);
    }
  }

  lemma Square(i: int)
    requires i >= 1
    ensures (i - 1) * (i + 1) == 2 * Triangle(i - 1) + i - 1
  {
    TriangleStep(i);
    assert i * (i + 1) == (i - 1) * (i + 1) + i + 1;
  }

  lemma Positive(n: int, amount: int, start: int)
    requires n >= 0 && amount >= 0 && start >= 1
    ensures n * amount >= 0 && n * amount / start >= 0
  {
  }

  lemma Whole(start: int, amount: int)
    requires start >= 1
    ensures (start + 1 - 1) * amount / start == amount
  {
    var p := start * amount;
    assert p == start * (p / start) + p % start;
    var d := amount - p / start;
    assert start * d == start * amount - start * (p / start);
    if d >= 1 {
      Widen(start, d, 1);
    }
    if d <= -1 {
      Widen(start, -1, d);
    }
  }

  /** The first hit if none is given: a twentieth of the amount, rounded up. */
  function DefaultStart(drawn: int): int {
    var twentieth := (drawn + 19) / 20;
    if twentieth < 1 then 1 else twentieth
  }

  /** With the default first hit the list is exact for all amounts up to 760, for 780, and for no other. */
  lemma DefaultExact(drawn: int)
    requires drawn != 0
    ensures Abs(drawn) >= Triangle(DefaultStart(drawn)) <==> drawn <= 760 || drawn == 780
  {
    var s := DefaultStart(drawn);
    TriangleStep(s);
    Minus(s, 1, s - 38);
    Minus(s, 40, s);
    if s >= 40 {
      Widen(s, s, 40);
    } else if 2 <= s <= 38 {
      Widen(s - 1, 0, s - 38);
    }
    assert s == 39 ==> s * (s + 1) == 1560;
  }

  // ----- the condition

  datatype IntervalInfo = IntervalInfo(timeLeft: int, value: int, interval: int)

  function Values(list: seq<IntervalInfo>): (s: seq<int>)
    ensures |s| == |list|
  {
    seq(|list|, k requires 0 <= k < |list| => list[k].value)
  }

  function Intervals(list: seq<IntervalInfo>): (s: seq<int>)
    ensures |s| == |list|
  {
    seq(|list|, k requires 0 <= k < |list| => list[k].interval)
  }

  function Negated(list: seq<int>): (s: seq<int>)
    ensures |s| == |list|
  {
    seq(|list|, k requires 0 <= k < |list| => -list[k])
  }

  lemma {:induction false} NegatedTotal(list: seq<int>)
    ensures Total(Negated(list)) == -Total(list)
  {
    if list != [] {
      NegatedTotal(list[..|list| - 1]);
      assert Negated(list)[..|list| - 1] == Negated(list[..|list| - 1]);
    }
  }

  lemma NoHits()
    ensures Total([]) == 0 && Total(Intervals([])) == 0 && Values([]) == Negated([])
  {
  }

  lemma HitAdded(before: seq<IntervalInfo>, hit: IntervalInfo, list: seq<int>, k: nat)
    requires k < |list| && Values(before) == Negated(list[..k]) && hit.value == -list[k]
    ensures Values(before + [hit]) == Negated(list[..k + 1])
    ensures Total(Intervals(before + [hit])) == Total(Intervals(before)) + hit.interval
  {
    hide Total;
    assert Values(before + [hit]) == Values(before) + [hit.value];
    assert Negated(list[..k + 1]) == Negated(list[..k]) + [-list[k]];
    assert Intervals(before + [hit]) == Intervals(before) + [hit.interval];
    TotalPush(Intervals(before), hit.interval);
  }

  class ConditionDamage {
    var ticks: int
    var periodDamage: int
    var damageList: seq<IntervalInfo>
    var minDamage: int
    var maxDamage: int
    var startDamage: int
    var tickInterval: int

    constructor (minDamage: int, maxDamage: int, startDamage: int, tickInterval: int)
      ensures this.minDamage == minDamage && this.maxDamage == maxDamage && this.startDamage == startDamage
      ensures this.tickInterval == tickInterval && periodDamage == 0 && damageList == []
    {
      this.minDamage, this.maxDamage, this.startDamage, this.tickInterval := minDamage, maxDamage, startDamage, tickInterval;
      ticks, periodDamage, damageList := 0, 0, [];
    }

    function Pace(): int
      reads this
    {
      if tickInterval < EVENT_CREATURE_THINK_INTERVAL then EVENT_CREATURE_THINK_INTERVAL else tickInterval
    }

    /** `getTotalDamage`: the hits still to come; without any, the mean of the bounds, rounded towards
        the lower bound, which need not be the smaller one. */
    method GetTotalDamage() returns (total: int)
      ensures damageList != [] ==> total == Abs(Total(Values(damageList)))
      ensures damageList == [] ==>
        2 * total == Abs(minDamage + maxDamage -
          (if (minDamage + maxDamage) % 2 == 0 then 0 else if minDamage < maxDamage then 1 else -1))
    {
      var result := 0;
      if damageList != [] {
        for k := 0 to |damageList|
          invariant result == Total(Values(damageList[..k]))
        {
          assert Values(damageList[..k + 1]) == Values(damageList[..k]) + [damageList[k].value];
          TotalPush(Values(damageList[..k]), damageList[k].value);
          result := result + damageList[k].value;
        }
        assert damageList[..|damageList|] == damageList;
      } else {
        var spread := maxDamage - minDamage;
        result := minDamage + if spread < 0 then -(-spread / 2) else spread / 2;
      }
      total := Abs(result);
    }

    /** `addDamage`: some rounds of damage, or, for -1 of them, damage without end. */
    method AddDamage(rounds: int, time: int, value: int) returns (ok: bool)
      modifies `ticks, `periodDamage, `tickInterval, `damageList
      ensures ok <==> rounds == -1 || old(periodDamage) <= 0
      ensures var pace := if time < EVENT_CREATURE_THINK_INTERVAL then EVENT_CREATURE_THINK_INTERVAL else time;
        if rounds == -1 then
          periodDamage == value && tickInterval == pace && ticks == -1 && damageList == old(damageList)
        else
          && periodDamage == old(periodDamage) && tickInterval == old(tickInterval)
          && var n := if ok && rounds > 0 then rounds else 0;
          && damageList == old(damageList) + seq(n, _ => IntervalInfo(pace, value, pace))
          && (old(ticks) == -1 ==> ticks == -1) && (old(ticks) >= 0 ==> ticks == old(ticks) + n * pace)
    {
      var pace := if time < EVENT_CREATURE_THINK_INTERVAL then EVENT_CREATURE_THINK_INTERVAL else time;
      if rounds == -1 {
        periodDamage, tickInterval, ticks := value, pace, -1;
        return true;
      }
      if periodDamage > 0 {
        return false;
      }
      var i: nat := 0;
      while i < rounds
        invariant (i == 0 || i <= rounds) && periodDamage == old(periodDamage) && tickInterval == old(tickInterval)
        invariant damageList == old(damageList) + seq(i, _ => IntervalInfo(pace, value, pace))
        invariant (old(ticks) == -1 ==> ticks == -1) && (old(ticks) >= 0 ==> ticks == old(ticks) + i * pace)
      {
        Minus(i + 1, i, pace);
        damageList := damageList + [IntervalInfo(pace, value, pace)];
        if ticks != -1 {
          ticks := ticks + pace;
        }
        i := i + 1;
      }
      ok := true;
    }

    /** The loop of `init` over the list of hits. */
    method AddHits(list: seq<int>)
      requires damageList == [] && ticks == 0 && periodDamage == 0
      modifies `ticks, `periodDamage, `tickInterval, `damageList
      ensures periodDamage == 0 && tickInterval == old(tickInterval)
      ensures Values(damageList) == Negated(list) && ticks == Total(Intervals(damageList))
      ensures forall j :: 0 <= j < |damageList| ==> damageList[j].timeLeft == damageList[j].interval == Pace()
    {
      hide Total, Values, Intervals, Negated;
      NoHits();
      for k := 0 to |list|
        invariant periodDamage == 0 && tickInterval == old(tickInterval)
        invariant Values(damageList) == Negated(list[..k]) && ticks == Total(Intervals(damageList)) >= 0
        invariant forall j :: 0 <= j < |damageList| ==> damageList[j].timeLeft == damageList[j].interval == Pace()
      {
        ghost var before := damageList;
        var added := AddDamage(1, tickInterval, -list[k]);
        assert damageList == before + [IntervalInfo(Pace(), -list[k], Pace())];
        HitAdded(before, IntervalInfo(Pace(), -list[k], Pace()), list, k);
      }
      assert list[..|list|] == list;
    }

    /** `init`: unless there is damage already, hits of `drawn` in all, or of a little more, evenly in
        time; the condition then lasts exactly as long as its hits. */
    method Init(drawn: int) returns (ok: bool)
      modifies `ticks, `periodDamage, `tickInterval, `damageList, `startDamage
      ensures periodDamage == old(periodDamage) && tickInterval == old(tickInterval)
      ensures old(periodDamage != 0 || damageList != []) ==> ok && damageList == old(damageList) && ticks == old(ticks)
      ensures old(periodDamage == 0 && damageList == []) ==> (
        && (ok <==> damageList != []) && ticks == Total(Intervals(damageList))
        && (forall k :: 0 <= k < |damageList| ==> damageList[k].timeLeft == damageList[k].interval == Pace())
        && (drawn == 0 ==> damageList == [] && startDamage == old(startDamage))
        && (drawn != 0 ==>
              startDamage == (if old(startDamage > maxDamage) then maxDamage else if old(startDamage) == 0 then DefaultStart(drawn) else old(startDamage)))
        && (drawn != 0 && startDamage >= 1 ==> (
              && Abs(Total(Values(damageList))) >= Abs(drawn)
              && (Abs(Total(Values(damageList))) == Abs(drawn) <==> Abs(drawn) >= Triangle(startDamage)))))
    {
      hide Triangle, Total, Falling, DefaultStart;
      if periodDamage != 0 || damageList != [] {
        return true;
      }
      NoHits();
      ticks := 0;
      if drawn != 0 {
        if startDamage > maxDamage {
          startDamage := maxDamage;
        } else if startDamage == 0 {
          startDamage := DefaultStart(drawn);
        }
        var list := GenerateDamageList(drawn, startDamage);
        AddHits(list);
        NegatedTotal(list);
      }
      ok := damageList != [];
    }
  }
}
