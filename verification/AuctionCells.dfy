/** The matching told cell by cell, each by those before it in its row and in its column, without
    the walk and the remainders that compute it. */
module AuctionCells {
  import opened Sums
  import opened AuctionMatching

  function FillAt(f: seq<int>, i: int): int {
    if 0 <= i < |f| then f[i] else 0
  }

  lemma {:induction false} PartsShift(x: int, rest: seq<int>, l: nat)
    ensures SumTo(l + 1, i => FillAt([x] + rest, i)) == x + SumTo(l, i => FillAt(rest, i))
  {
    if l > 0 { PartsShift(x, rest, l - 1); }
  }

  /** One walk visits a lender exactly if its rate is agreeable and those before it left a need,
      and takes the lesser of that need and what the lender has. */
  lemma {:induction false} VisitCell(rates: seq<int>, rem: seq<int>, limit: int, need: int, l: nat)
    requires |rem| == |rates| && Ascending(rates) && NonNegative(rem) && 0 <= need && l < |rates|
    ensures var f := Visit(rates, rem, limit, need);
      var wanted := need - SumTo(l, i => FillAt(f, i));
      && (l < |f| <==> rates[l] <= limit && wanted > 0)
      && (l < |f| ==> f[l] == if rem[l] <= wanted then rem[l] else wanted)
  {
    var f := Visit(rates, rem, limit, need);
    if f == [] {
      SumToZero(l, i => FillAt(f, i));
    } else if l > 0 {
      var rest := Visit(rates[1..], rem[1..], limit, need - f[0]);
      assert f == [f[0]] + rest;
      VisitCell(rates[1..], rem[1..], limit, need - f[0], l - 1);
      PartsShift(f[0], rest, l - 1);
    }
  }

  /** The whole matching cell by cell, each told by those before it in its row and in its column:
      a borrower visits a lender exactly if it accepts its rate and is still short after the
      lenders before it, and takes the lesser of what it is short of and what the borrowers
      before it left with that lender. */
  lemma {:induction false} EveryCell(bs: seq<Borrower>, rates: seq<int>, amounts: seq<int>, b: nat, l: nat)
    requires Market(bs, rates, amounts) && b < |bs| && l < |rates|
    ensures var fills := Match(bs, rates, amounts);
      var wanted := bs[b].amount - SumTo(l, i => Cell(fills, b, i));
      var left := amounts[l] - SumTo(b, k => Cell(fills, k, l));
      && (l < |fills[b]| <==> rates[l] <= bs[b].limit && wanted > 0)
      && Cell(fills, b, l)
           == if rates[l] > bs[b].limit || wanted <= 0 then 0 else if left <= wanted then left else wanted
  {
    var fills := Match(bs, rates, amounts);
    ServedInTurn(bs, rates, amounts, b);
    VisitCell(rates, Remaining(amounts, fills[..b]), bs[b].limit, bs[b].amount, l);
    RemainingIsRest(amounts, fills[..b], l);
    SumToSame(b, k => Cell(fills[..b], k, l), k => Cell(fills, k, l));
    SumToSame(l, i => FillAt(fills[b], i), i => Cell(fills, b, i));
  }
}
