/**
 * The weighted random scheduler of the proxy: `Start` expands the candidates
 * into a flat table in which each candidate fills as many slots as its weight
 * earns, and `Next` picks a slot with a random draw.
 */
module Scheduling {
  import opened Wrappers
  import opened Lists

  /** A schedulable backend: its identity and its configured weight. */
  datatype Candidate = Candidate(id: string, weight: nat)

  /** Weights are clamped to this maximum before any arithmetic. */
  const MaxWeight: nat := 10000
  /** Up to this total weight every candidate gets exactly its weight in slots. */
  const SmallTotal: nat := 1000
  /** Above SmallTotal the slots are rescaled to a universe of this size. */
  const Universe: nat := 10000

  /** What the scheduler reports about itself. */
  datatype SchedulingSummary = SchedulingSummary(code: string, name: string, description: string)

  /** The weight used for scheduling: 0 counts as 1 and the maximum is MaxWeight. */
  function NormalizeWeight(w: nat): (r: nat)
    ensures 1 <= r <= MaxWeight
    ensures 1 <= w <= MaxWeight ==> r == w
    ensures w == 0 ==> r == 1
    ensures w > MaxWeight ==> r == MaxWeight
  {
    if w == 0 then 1 else if w > MaxWeight then MaxWeight else w
  }

  /** Sum of the normalised weights of `cs`. */
  function SumWeights(cs: seq<Candidate>): (s: nat)
    ensures |cs| <= s <= 10000 * |cs|
    decreases |cs|
  {
    if |cs| == 0 then 0
    else SumWeights(cs[..|cs| - 1]) + NormalizeWeight(cs[|cs| - 1].weight)
  }

  /**
   * Slots earned by a normalised weight `w` when the normalised weights sum to
   * `sum`: `w` itself for a small total, otherwise `w * Universe / sum` rounded
   * to the nearest integer, halves rounded up.
   */
  function SlotCount(w: nat, sum: nat): nat
    requires sum > 0
  {
    if sum <= SmallTotal then w else (2 * w * Universe + sum) / (2 * sum)
  }

  /** Slots earned by candidate `c` in a pool whose weights sum to `sum`. */
  function Slots(c: Candidate, sum: nat): nat
    requires sum > 0
  {
    SlotCount(NormalizeWeight(c.weight), sum)
  }

  /** Total number of slots earned by the candidates `cs`. */
  function TotalSlots(cs: seq<Candidate>, sum: nat): nat
    requires sum > 0
    decreases |cs|
  {
    if |cs| == 0 then 0 else TotalSlots(cs[..|cs| - 1], sum) + Slots(cs[|cs| - 1], sum)
  }

  /** The expansion table: each candidate repeated by its slot count, in candidate order. */
  function Expand(cs: seq<Candidate>, sum: nat): seq<Candidate>
    requires sum > 0
    decreases |cs|
  {
    if |cs| == 0 then []
    else Expand(cs[..|cs| - 1], sum) + Repeat(cs[|cs| - 1], Slots(cs[|cs| - 1], sum))
  }

  lemma SlotCountSmallTotal(w: nat, sum: nat)
    requires 0 < sum <= SmallTotal
    ensures SlotCount(w, sum) == w
  {
  }

  /** Above SmallTotal the slot count is `w * Universe / sum` rounded to the nearest integer. */
  lemma SlotCountRounds(w: nat, sum: nat)
    requires sum > SmallTotal
    ensures 2 * w * Universe - sum < 2 * sum * SlotCount(w, sum) <= 2 * w * Universe + sum
  {
    var a := 2 * w * Universe + sum;
    var q := a / (2 * sum);
    assert a == 2 * sum * q + a % (2 * sum);
  }

  /** A weight that is part of the total never earns more than the whole universe. */
  lemma SlotCountBounded(w: nat, sum: nat)
    requires sum > SmallTotal && w <= sum
    ensures SlotCount(w, sum) <= Universe
  {
    SlotCountRounds(w, sum);
    CancelBelow(SlotCount(w, sum), Universe + 1, 2 * sum);
  }

  /** `a < b` follows from `a * s < b * s` for a positive `s`. */
  lemma CancelBelow(a: int, b: int, s: int)
    requires s > 0 && a * s < b * s
    ensures a < b
  {
  }

  /** Above SmallTotal a weight earns no slot exactly when it is below 1/20000 of the total. */
  lemma SlotCountZero(w: nat, sum: nat)
    requires sum > SmallTotal
    ensures SlotCount(w, sum) == 0 <==> 2 * w * Universe < sum
  {
    SlotCountRounds(w, sum);
    var q := SlotCount(w, sum);
    if q >= 1 {
      ProductAtLeast(q, 2 * sum);
    }
  }

  lemma ProductAtLeast(q: int, s: int)
    requires q >= 1 && s >= 0
    ensures s * q >= s
  {
  }

  lemma {:induction false} ExpandLength(cs: seq<Candidate>, sum: nat)
    requires sum > 0
    ensures |Expand(cs, sum)| == TotalSlots(cs, sum)
    decreases |cs|
  {
    if |cs| > 0 {
      ExpandLength(cs[..|cs| - 1], sum);
    }
  }

  /** Every entry of the table is one of the candidates. */
  lemma {:induction false} ExpandMembers(cs: seq<Candidate>, sum: nat)
    requires sum > 0
    ensures forall x :: x in Expand(cs, sum) ==> x in cs
    decreases |cs|
  {
    if |cs| > 0 {
      var p := cs[..|cs| - 1];
      ExpandMembers(p, sum);
      forall x | x in Expand(cs, sum) ensures x in cs {
        RepeatContents(cs[|cs| - 1], Slots(cs[|cs| - 1], sum), x);
        if x in Expand(p, sum) {
          assert x in p;
        }
      }
    }
  }

  /** A candidate occupies as many slots as it earns, once for every time it is listed. */
  lemma {:induction false} ExpandCounts(cs: seq<Candidate>, sum: nat, c: Candidate)
    requires sum > 0
    ensures multiset(Expand(cs, sum))[c] == multiset(cs)[c] * Slots(c, sum)
    decreases |cs|
  {
    if |cs| > 0 {
      var p, x := cs[..|cs| - 1], cs[|cs| - 1];
      var k := Slots(c, sum);
      ExpandCounts(p, sum, c);
      RepeatContents(x, Slots(x, sum), c);
      MultisetLast(cs);
      var m := multiset(p)[c];
      CountStep(m, k, x == c);
    }
  }

  /** A candidate appears in the table exactly when it is listed and earns a slot. */
  lemma ExpandMembership(cs: seq<Candidate>, sum: nat, c: Candidate)
    requires sum > 0
    ensures c in Expand(cs, sum) <==> c in cs && Slots(c, sum) > 0
  {
    ExpandCounts(cs, sum, c);
    CountStep(multiset(cs)[c], Slots(c, sum), false);
  }

  /** Arithmetic step of ExpandCounts: one more listing adds one more block of `k` slots. */
  lemma CountStep(m: nat, k: nat, same: bool)
    ensures m * k + (if same then k else 0) == (m + if same then 1 else 0) * k
    ensures (m + if same then 1 else 0) * k > 0 <==> (m + if same then 1 else 0) > 0 && k > 0
  {
  }

  lemma {:induction false} ExpandAppend(a: seq<Candidate>, b: seq<Candidate>, sum: nat)
    requires sum > 0
    ensures Expand(a + b, sum) == Expand(a, sum) + Expand(b, sum)
    decreases |b|
  {
    if |b| > 0 {
      var b' := b[..|b| - 1];
      assert (a + b)[..|a + b| - 1] == a + b';
      ExpandAppend(a, b', sum);
    } else {
      assert a + b == a;
    }
  }

  /**
   * Candidate `i` fills one contiguous block of the table, right after the
   * blocks of the candidates listed before it.
   */
  lemma ExpandBlock(cs: seq<Candidate>, sum: nat, i: nat)
    requires sum > 0 && i < |cs|
    ensures Expand(cs, sum) ==
      Expand(cs[..i], sum) + Repeat(cs[i], Slots(cs[i], sum)) + Expand(cs[i + 1..], sum)
    ensures |Expand(cs[..i], sum)| == TotalSlots(cs[..i], sum)
  {
    assert cs == cs[..i + 1] + cs[i + 1..];
    assert cs[..i + 1][..i] == cs[..i];
    ExpandAppend(cs[..i + 1], cs[i + 1..], sum);
    ExpandLength(cs[..i], sum);
  }

  /** With a small total every candidate fills exactly its normalised weight, so the table has `sum` entries. */
  lemma {:induction false} TotalSlotsSmall(cs: seq<Candidate>, sum: nat)
    requires 0 < sum <= SmallTotal
    ensures TotalSlots(cs, sum) == SumWeights(cs)
    decreases |cs|
  {
    if |cs| > 0 {
      TotalSlotsSmall(cs[..|cs| - 1], sum);
    }
  }

  /** Summed rounding error: the table is within half a slot per candidate of the scaled weights. */
  lemma {:induction false} TotalSlotsScaled(cs: seq<Candidate>, sum: nat)
    requires sum > SmallTotal
    ensures 2 * Universe * SumWeights(cs) - |cs| * sum <= 2 * sum * TotalSlots(cs, sum)
    ensures 2 * sum * TotalSlots(cs, sum) <= 2 * Universe * SumWeights(cs) + |cs| * sum
    decreases |cs|
  {
    if |cs| > 0 {
      var p, x := cs[..|cs| - 1], cs[|cs| - 1];
      TotalSlotsScaled(p, sum);
      var w := NormalizeWeight(x.weight);
      SlotCountRounds(w, sum);
      RoundingStep(SumWeights(p), w, TotalSlots(p, sum), SlotCount(w, sum), |p|, sum);
    }
  }

  /** Arithmetic step of TotalSlotsScaled: the errors of two parts add up. */
  lemma RoundingStep(s: int, w: int, t: int, q: int, n: int, sum: int)
    requires 2 * Universe * s - n * sum <= 2 * sum * t <= 2 * Universe * s + n * sum
    requires 2 * w * Universe - sum < 2 * sum * q <= 2 * w * Universe + sum
    ensures 2 * Universe * (s + w) - (n + 1) * sum <= 2 * sum * (t + q)
    ensures 2 * sum * (t + q) <= 2 * Universe * (s + w) + (n + 1) * sum
  {
    assert 2 * sum * (t + q) == 2 * sum * t + 2 * sum * q;
    assert (n + 1) * sum == n * sum + sum;
  }

  /** Dividing the bounds of TotalSlotsScaled by the (positive) total. */
  lemma CancelTotal(t: int, n: int, sum: int)
    requires sum > 0
    requires 2 * Universe * sum - n * sum <= 2 * sum * t <= 2 * Universe * sum + n * sum
    ensures Universe * 2 - n <= 2 * t <= Universe * 2 + n
  {
    assert (Universe * 2 - n) * sum == 2 * Universe * sum - n * sum;
    assert (Universe * 2 + n) * sum == 2 * Universe * sum + n * sum;
    assert 2 * sum * t == (2 * t) * sum;
    if Universe * 2 - n > 2 * t {
      ProductOrder(2 * t, Universe * 2 - n, sum);
    }
    if 2 * t > Universe * 2 + n {
      ProductOrder(Universe * 2 + n, 2 * t, sum);
    }
  }

  lemma ProductOrder(a: int, b: int, s: int)
    requires a < b && s > 0
    ensures a * s < b * s
  {
  }

  /**
   * Once rescaled, the table holds between 10000 - n/2 and 10000 + n/2
   * entries for n candidates; so up to 10000 candidates it is never empty.
   */
  lemma TableSizeScaled(cs: seq<Candidate>)
    requires SumWeights(cs) > SmallTotal
    ensures Universe * 2 - |cs| <= 2 * TotalSlots(cs, SumWeights(cs)) <= Universe * 2 + |cs|
    ensures |cs| <= Universe ==> TotalSlots(cs, SumWeights(cs)) > 0
  {
    var sum := SumWeights(cs);
    TotalSlotsScaled(cs, sum);
    CancelTotal(TotalSlots(cs, sum), |cs|, sum);
  }

  /** Six candidates of weight 200 produce a table of 10002 entries: more than the 10000-slot universe. */
  lemma TableCanExceedUniverse()
    ensures var c := Candidate("", 200);
      SumWeights([c, c, c, c, c, c]) == 1200 && TotalSlots([c, c, c, c, c, c], 1200) == 10002
  {
    var c := Candidate("", 200);
    var cs := [c, c, c, c, c, c];
    assert Slots(c, 1200) == 1667;
    assert cs[..1][..0] == [] && cs[..2][..1] == cs[..1] && cs[..3][..2] == cs[..2];
    assert cs[..4][..3] == cs[..3] && cs[..5][..4] == cs[..4] && cs[..5] == cs[..|cs| - 1];
    assert SumWeights(cs[..1]) == 200 && TotalSlots(cs[..1], 1200) == 1667;
    assert SumWeights(cs[..2]) == 400 && TotalSlots(cs[..2], 1200) == 3334;
    assert SumWeights(cs[..3]) == 600 && TotalSlots(cs[..3], 1200) == 5001;
    assert SumWeights(cs[..4]) == 800 && TotalSlots(cs[..4], 1200) == 6668;
    assert SumWeights(cs[..5]) == 1000 && TotalSlots(cs[..5], 1200) == 8335;
  }

  /** More than 20000 candidates of weight 0 or 1 all round to no slot: the table stays empty. */
  lemma {:induction false} ManyUnitWeightsEmptyTable(cs: seq<Candidate>, sum: nat)
    requires forall k :: 0 <= k < |cs| ==> cs[k].weight <= 1
    requires sum > 2 * Universe
    ensures TotalSlots(cs, sum) == 0
    decreases |cs|
  {
    if |cs| > 0 {
      ManyUnitWeightsEmptyTable(cs[..|cs| - 1], sum);
      SlotCountZero(1, sum);
    }
  }

  /** The random scheduler: a list of candidates and the expansion table built from them. */
  class RandomScheduling {
    const candidates: seq<Candidate>
    /** The expansion table (the source field `array`). */
    var table: seq<Candidate>
    var count: nat

    /** `count` is the table size and every table entry is a candidate. */
    ghost predicate Valid()
      reads this
    {
      count == |table| && forall k :: 0 <= k < |table| ==> table[k] in candidates
    }

    constructor (candidates: seq<Candidate>)
      ensures Valid()
      ensures this.candidates == candidates && table == [] && count == 0
    {
      this.candidates := candidates;
      table := [];
      count := 0;
    }

    /** The first loop of Start: the sum of the normalised weights. */
    method WeightSum() returns (sumWeight: nat)
      ensures sumWeight == SumWeights(candidates)
      ensures sumWeight == 0 <==> |candidates| == 0
    {
      sumWeight := 0;
      var i := 0;
      while i < |candidates|
        invariant 0 <= i <= |candidates|
        invariant sumWeight == SumWeights(candidates[..i])
      {
        var weight := candidates[i].weight;
        if weight == 0 {
          weight := 1;
        } else if weight > 10000 {
          weight := 10000;
        }
        assert candidates[..i + 1][..i] == candidates[..i];
        sumWeight := sumWeight + weight;
        i := i + 1;
      }
      assert candidates[..i] == candidates;
    }

    /** The slot count Start computes for candidate `c`. */
    method SlotsOf(c: Candidate, sumWeight: nat) returns (n: nat)
      requires sumWeight > 0
      ensures n == Slots(c, sumWeight)
    {
      var weight := c.weight;
      if weight == 0 {
        weight := 1;
      } else if weight > 10000 {
        weight := 10000;
      }
      if sumWeight <= 1000 {
        n := weight;
      } else {
        var scaled: nat, twice: nat := 2 * weight * 10000 + sumWeight, 2 * sumWeight;
        n := scaled / twice;
      }
    }

    /**
     * Appends the expansion of the candidates to the table (nothing when there
     * are no candidates); the table is never reset.
     */
    method Start()
      requires Valid()
      modifies this`table, this`count
      ensures Valid()
      ensures |candidates| == 0 ==> table == old(table) && count == old(count)
      ensures |candidates| > 0 ==>
        table == old(table) + Expand(candidates, SumWeights(candidates)) &&
        count == old(count) + TotalSlots(candidates, SumWeights(candidates))
    {
      var sumWeight := WeightSum();
      if sumWeight == 0 {
        return;
      }

      ghost var start := table;
      var i := 0;
      while i < |candidates|
        invariant 0 <= i <= |candidates|
        invariant table == start + Expand(candidates[..i], sumWeight)
        invariant count == |table|
      {
        var c := candidates[i];
        var n := SlotsOf(c, sumWeight);
        AppendCopies(c, n);
        count := count + n;
        assert candidates[..i + 1][..i] == candidates[..i];
        i := i + 1;
      }
      assert candidates[..i] == candidates;
      ExpandMembers(candidates, sumWeight);
      ExpandLength(candidates, sumWeight);
      assert forall k :: |start| <= k < |table| ==> table[k] in Expand(candidates, sumWeight);
    }

    /** The inner loop of Start: `n` more copies of `c` at the end of the table. */
    method AppendCopies(c: Candidate, n: nat)
      modifies this`table
      ensures table == old(table) + Repeat(c, n)
    {
      var j := 0;
      while j < n
        invariant 0 <= j <= n
        invariant table == old(table) + Repeat(c, j)
      {
        RepeatContents(c, j, c);
        table := table + [c];
        j := j + 1;
      }
    }

    /**
     * The candidate in the slot chosen by the random draw `r`, or None when
     * the table is empty.
     */
    method Next(r: nat) returns (c: Option<Candidate>)
      requires Valid()
      ensures c.None? <==> count == 0
      ensures c.Some? ==> c.value == table[r % count] && c.value in candidates
    {
      if count == 0 {
        return None;
      }
      var index := r % count;
      return Some(table[index]);
    }

    /** The scheduler's fixed self-description; it reads no state. */
    function Summary(): (s: SchedulingSummary)
      ensures s.code == "random" && s.name == "Random随机算法"
      ensures s.description == "根据权重设置随机分配后端服务器"
    {
      SchedulingSummary("random", "Random随机算法", "根据权重设置随机分配后端服务器")
    }
  }

  /** With 1 to 10000 candidates the expansion has at least one slot, so after Start, count > 0 and Next returns a candidate. */
  lemma StartedTableServes(cs: seq<Candidate>)
    requires 0 < |cs| <= Universe
    ensures TotalSlots(cs, SumWeights(cs)) > 0
  {
    var sum := SumWeights(cs);
    if sum <= SmallTotal {
      TotalSlotsSmall(cs, sum);
    } else {
      TableSizeScaled(cs);
    }
  }
}
