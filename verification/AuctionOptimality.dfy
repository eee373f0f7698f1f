/** How much a matching round lends compared with the best that was possible. */
module AuctionOptimality {
  import opened Sums
  import opened AuctionMatching

  /** What borrower b receives under x from n lenders. */
  function Row(x: (int, int) -> int, n: nat, b: int): int {
    SumTo(n, l => x(b, l))
  }

  /** What lender l gives under x to m borrowers. */
  function Column(x: (int, int) -> int, m: nat, l: int): int {
    SumTo(m, b => x(b, l))
  }

  function PlanVolume(x: (int, int) -> int, m: nat, n: nat): int {
    SumTo(m, b => Row(x, n, b))
  }

  /** Any allocation that respects the amounts and every borrower's rate limit, in
      whatever order and however split. */
  ghost predicate Feasible(x: (int, int) -> int, bs: seq<Borrower>, rates: seq<int>, amounts: seq<int>)
    requires |amounts| == |rates|
  {
    && (forall b, l :: 0 <= b < |bs| && 0 <= l < |rates| ==>
          0 <= x(b, l) && (0 < x(b, l) ==> rates[l] <= bs[b].limit))
    && (forall b :: 0 <= b < |bs| ==> Row(x, |rates|, b) <= bs[b].amount)
    && (forall l :: 0 <= l < |rates| ==> Column(x, |bs|, l) <= amounts[l])
  }

  lemma {:induction false} PlanVolumeByLender(x: (int, int) -> int, m: nat, n: nat)
    ensures PlanVolume(x, m, n) == SumTo(n, l => Column(x, m, l))
  {
    SumToSwap(m, n, x);
    SumToSame(m, b => Row(x, n, b), b => SumTo(n, l => x(b, l)));
    SumToSame(n, l => Column(x, m, l), l => SumTo(m, b => x(b, l)));
  }

  lemma PlanVolumeSplits(x: (int, int) -> int, y: (int, int) -> int, z: (int, int) -> int, m: nat, n: nat)
    requires forall b, l :: 0 <= b < m && 0 <= l < n ==> x(b, l) <= y(b, l) + z(b, l)
    ensures PlanVolume(x, m, n) <= PlanVolume(y, m, n) + PlanVolume(z, m, n)
  {
    forall b | 0 <= b < m
      ensures Row(x, n, b) <= Row(y, n, b) + Row(z, n, b)
    {
      var fy, fz := l => y(b, l), l => z(b, l);
      SumToPlus(n, fy, fz);
      SumToMonotone(n, l => x(b, l), l => fy(l) + fz(l));
    }
    var ry, rz := b => Row(y, n, b), b => Row(z, n, b);
    SumToPlus(m, ry, rz);
    SumToMonotone(m, b => Row(x, n, b), b => ry(b) + rz(b));
  }

  /** The round lends at least half of what any feasible allocation of the same orders
      lends: each unit of the other plan has a borrower that was served in full or a lender
      that was emptied. */
  lemma {:induction false} AtLeastHalfOfAnyPlan(x: (int, int) -> int, bs: seq<Borrower>, rates: seq<int>,
                                                amounts: seq<int>)
    requires Market(bs, rates, amounts) && Feasible(x, bs, rates, amounts)
    ensures PlanVolume(x, |bs|, |rates|) <= 2 * Volume(Match(bs, rates, amounts))
  {
    var fills, m, n := Match(bs, rates, amounts), |bs|, |rates|;
    var y := (b, l) => if 0 <= b < m && BorrowerTotal(fills, b) == bs[b].amount then x(b, l) else 0;
    var z := (b, l) => if 0 <= l < n && LenderTotal(fills, l) == amounts[l] then x(b, l) else 0;
    forall b, l | 0 <= b < m && 0 <= l < n
      ensures x(b, l) <= y(b, l) + z(b, l)
    {
      BorrowerNotOverfilled(bs, rates, amounts, b);
      LenderNotOverfilled(bs, rates, amounts, l);
      RemainingIsRest(amounts, fills, l);
      if y(b, l) != x(b, l) && z(b, l) != x(b, l) {
        NoAgreeablePairLeft(bs, rates, amounts, b, l);
      }
    }
    PlanVolumeSplits(x, y, z, m, n);
    forall b | 0 <= b < m
      ensures Row(y, n, b) <= BorrowerTotal(fills, b)
    {
      BorrowerNotOverfilled(bs, rates, amounts, b);
      if BorrowerTotal(fills, b) == bs[b].amount {
        SumToSame(n, l => y(b, l), l => x(b, l));
        assert Row(x, n, b) <= bs[b].amount;
      } else {
        SumToZero(n, l => y(b, l));
      }
    }
    SumToMonotone(m, b => Row(y, n, b), b => BorrowerTotal(fills, b));
    forall l | 0 <= l < n
      ensures Column(z, m, l) <= LenderTotal(fills, l)
    {
      LenderNotOverfilled(bs, rates, amounts, l);
      if LenderTotal(fills, l) == amounts[l] {
        SumToSame(m, b => z(b, l), b => x(b, l));
        assert Column(x, m, l) <= amounts[l];
      } else {
        SumToZero(m, b => z(b, l));
      }
    }
    PlanVolumeByLender(z, m, n);
    SumToMonotone(n, l => Column(z, m, l), l => LenderTotal(fills, l));
    Conserves(bs, rates, amounts);
  }

  /** Two borrowers that want `big` each: the first accepts rates up to 2, the second only 1. */
  function ShutOut(big: int): seq<Borrower> {
    [Borrower(2, big), Borrower(1, big)]
  }

  /** The first borrower served by the dear lender, the second by the cheap one. */
  function CrossPlan(big: int): (int, int) -> int {
    (b, l) => if b + l == 1 then big else 0
  }

  /** The factor cannot be improved: serving the flexible borrower first from the cheap
      lender can shut out the borrower that could only use that one. */
  lemma HalfIsReached(big: int)
    requires 0 < big
    ensures Market(ShutOut(big), [1, 2], [big, big])
    ensures Feasible(CrossPlan(big), ShutOut(big), [1, 2], [big, big])
    ensures PlanVolume(CrossPlan(big), 2, 2) == 2 * Volume(Match(ShutOut(big), [1, 2], [big, big]))
  {
    CrossPlanVolume(big);
    ShutOutVolume(big);
  }

  lemma CrossPlanVolume(big: int)
    requires 0 < big
    ensures Feasible(CrossPlan(big), ShutOut(big), [1, 2], [big, big])
    ensures PlanVolume(CrossPlan(big), 2, 2) == 2 * big
  {
    var x := CrossPlan(big);
    assert Row(x, 2, 0) == SumTo(1, l => x(0, l)) + big && Row(x, 2, 1) == SumTo(1, l => x(1, l));
    assert Column(x, 2, 0) == SumTo(1, b => x(b, 0)) + big && Column(x, 2, 1) == SumTo(1, b => x(b, 1));
    assert PlanVolume(x, 2, 2) == SumTo(1, b => Row(x, 2, b)) + Row(x, 2, 1);
  }

  lemma {:induction false} FirstTakesCheapLender(big: int)
    requires 0 < big
    ensures Visit([1, 2], [big, big], 2, big) == [big]
  {
    assert [1, 2][1..] == [2] && [big, big][1..] == [big];
    assert Visit([2], [big], 2, 0) == [];
  }

  lemma {:induction false} SecondFindsItEmpty(big: int)
    requires 0 < big
    ensures Visit([1, 2], [0, big], 1, big) == [0]
  {
    assert [1, 2][1..] == [2] && [0, big][1..] == [big];
    assert Visit([2], [big], 1, big) == [];
  }

  lemma ShutOutFills(big: int)
    requires 0 < big
    ensures Match(ShutOut(big), [1, 2], [big, big]) == [[big], [0]]
  {
    var bs, rates, amounts := ShutOut(big), [1, 2], [big, big];
    FirstTakesCheapLender(big);
    SecondFindsItEmpty(big);
    FirstAlone(big);
    assert bs[..1] == [Borrower(2, big)] && bs[1] == Borrower(1, big);
    assert [[big]][..0] == [] && Remaining(amounts, []) == amounts;
    assert Remaining(amounts, [[big]]) == Reduce(amounts, [big]) == [0, big];
  }

  lemma FirstAlone(big: int)
    requires 0 < big
    ensures Match([Borrower(2, big)], [1, 2], [big, big]) == [[big]]
  {
    FirstTakesCheapLender(big);
    var bs, rates, amounts := [Borrower(2, big)], [1, 2], [big, big];
    assert bs[..0] == [] && Match([], rates, amounts) == [] && Remaining(amounts, []) == amounts;
  }

  lemma ShutOutVolume(big: int)
    requires 0 < big
    ensures Volume(Match(ShutOut(big), [1, 2], [big, big])) == big
  {
    ShutOutFills(big);
    var fills := [[big], [0]];
    SumFirst(big, []);
    SumFirst(0, []);
    assert [big] + [] == [big] && [0] + [] == [0];
    assert BorrowerTotal(fills, 0) == big && BorrowerTotal(fills, 1) == 0;
    assert SumTo(1, b => BorrowerTotal(fills, b)) == SumTo(0, b => BorrowerTotal(fills, b)) + big;
  }
}
