/** What one matching round decides, on plain values: the lenders stand in ascending rate
    order, the borrowers are served in turn, and each borrower walks the lenders from the
    front taking what it can. Everything the heap-level engine promises is proved here. */
module AuctionMatching {
  import opened Sums

  datatype Borrower = Borrower(limit: int, amount: int)

  /** What a borrower that still needs `need` takes from these lenders in turn. A lender
      with nothing left is still visited and gives a record of amount 0. */
  function Visit(rates: seq<int>, rem: seq<int>, limit: int, need: int): seq<int>
    requires |rem| == |rates|
  {
    if rates == [] || need <= 0 || limit < rates[0] then []
    else
      var take := if need - rem[0] >= 0 then rem[0] else need;
      [take] + Visit(rates[1..], rem[1..], limit, need - take)
  }

  /** The lenders' remaining amounts after one more borrower. */
  function Reduce(rem: seq<int>, fills: seq<int>): (r: seq<int>) {
    seq(|rem|, i requires 0 <= i < |rem| => if i < |fills| then rem[i] - fills[i] else rem[i])
  }

  function Remaining(amounts: seq<int>, fills: seq<seq<int>>): (r: seq<int>)
    ensures |r| == |amounts|
  {
    if fills == [] then amounts
    else Reduce(Remaining(amounts, fills[..|fills| - 1]), fills[|fills| - 1])
  }

  /** fills[b][l] is what borrower b took from lender l; b visited exactly the first
      |fills[b]| lenders. */
  function Match(bs: seq<Borrower>, rates: seq<int>, amounts: seq<int>): (fills: seq<seq<int>>)
    requires |amounts| == |rates|
    ensures |fills| == |bs|
  {
    if bs == [] then []
    else
      var before := Match(bs[..|bs| - 1], rates, amounts);
      var b := bs[|bs| - 1];
      before + [Visit(rates, Remaining(amounts, before), b.limit, b.amount)]
  }

  predicate NonNegative(s: seq<int>) {
    forall i :: 0 <= i < |s| ==> 0 <= s[i]
  }

  predicate Ascending(s: seq<int>) {
    forall i, j :: 0 <= i < j < |s| ==> s[i] <= s[j]
  }

  predicate Market(bs: seq<Borrower>, rates: seq<int>, amounts: seq<int>) {
    && |amounts| == |rates| && Ascending(rates) && NonNegative(amounts)
    && forall b :: 0 <= b < |bs| ==> 0 <= bs[b].amount
  }

  function Cell(fills: seq<seq<int>>, b: int, l: int): int {
    if 0 <= b < |fills| && 0 <= l < |fills[b]| then fills[b][l] else 0
  }

  function LenderTotal(fills: seq<seq<int>>, l: int): int {
    SumTo(|fills|, b => Cell(fills, b, l))
  }

  function BorrowerTotal(fills: seq<seq<int>>, b: int): int {
    if 0 <= b < |fills| then Sum(fills[b]) else 0
  }

  function Volume(fills: seq<seq<int>>): int {
    SumTo(|fills|, b => BorrowerTotal(fills, b))
  }

  lemma {:induction false} VisitLength(rates: seq<int>, rem: seq<int>, limit: int, need: int)
    requires |rem| == |rates|
    ensures |Visit(rates, rem, limit, need)| <= |rates|
  {
    if rates != [] && need > 0 && rates[0] <= limit {
      VisitLength(rates[1..], rem[1..], limit, need - (if need - rem[0] >= 0 then rem[0] else need));
    }
  }

  /** One walk stays within the need and within each lender's rest, never above the limit. */
  lemma {:induction false} VisitBounds(rates: seq<int>, rem: seq<int>, limit: int, need: int)
    requires |rem| == |rates| && NonNegative(rem) && 0 <= need
    ensures var f := Visit(rates, rem, limit, need);
      && |f| <= |rates|
      && 0 <= Sum(f) <= need
      && forall i :: 0 <= i < |f| ==> 0 <= f[i] <= rem[i] && rates[i] <= limit
  {
    var f := Visit(rates, rem, limit, need);
    if f != [] {
      var rest := Visit(rates[1..], rem[1..], limit, need - f[0]);
      assert f == [f[0]] + rest;
      VisitBounds(rates[1..], rem[1..], limit, need - f[0]);
      SumFirst(f[0], rest);
      forall i | 0 <= i < |f|
        ensures 0 <= f[i] <= rem[i] && rates[i] <= limit
      {
        if i > 0 {
          assert f[i] == rest[i - 1] && rem[i] == rem[1..][i - 1] && rates[i] == rates[1..][i - 1];
        }
      }
    }
  }

  /** A walk goes on until it meets the need, the end or a dearer lender. */
  lemma {:induction false} VisitStops(rates: seq<int>, rem: seq<int>, limit: int, need: int)
    requires |rem| == |rates| && 0 <= need
    ensures var f := Visit(rates, rem, limit, need);
      |f| <= |rates| && (Sum(f) == need || |f| == |rates| || limit < rates[|f|])
  {
    VisitLength(rates, rem, limit, need);
    var f := Visit(rates, rem, limit, need);
    if f != [] {
      VisitStops(rates[1..], rem[1..], limit, need - f[0]);
      SumFirst(f[0], f[1..]);
      assert f == [f[0]] + f[1..];
      assert |f| < |rates| ==> rates[|f|] == rates[1..][|f| - 1];
    }
  }

  /** A walk empties every lender but the last it visits, and that one too unless the need
      is met. */
  lemma {:induction false} VisitEmpties(rates: seq<int>, rem: seq<int>, limit: int, need: int)
    requires |rem| == |rates| && NonNegative(rem) && 0 <= need
    ensures var f := Visit(rates, rem, limit, need);
      && |f| <= |rates|
      && (forall i :: 0 <= i < |f| && (i < |f| - 1 || Sum(f) < need) ==> f[i] == rem[i])
  {
    VisitLength(rates, rem, limit, need);
    var f := Visit(rates, rem, limit, need);
    if f != [] {
      var rest := Visit(rates[1..], rem[1..], limit, need - f[0]);
      assert f == [f[0]] + rest;
      VisitEmpties(rates[1..], rem[1..], limit, need - f[0]);
      VisitBounds(rates[1..], rem[1..], limit, need - f[0]);
      SumFirst(f[0], rest);
      forall i | 0 <= i < |f| && (i < |f| - 1 || Sum(f) < need)
        ensures f[i] == rem[i]
      {
        if i > 0 { assert f[i] == rest[i - 1] && rem[i] == rem[1..][i - 1]; }
      }
    }
  }

  lemma {:induction false} SumFirst(x: int, s: seq<int>)
    ensures Sum([x] + s) == x + Sum(s)
  {
    SumConcat([x], s);
    assert [x][..0] == [];
    assert Sum([x]) == Sum([x][..0]) + x;
  }

  lemma {:induction false} RemainingIsRest(amounts: seq<int>, fills: seq<seq<int>>, l: nat)
    requires l < |amounts|
    ensures Remaining(amounts, fills)[l] == amounts[l] - LenderTotal(fills, l)
  {
    if fills != [] {
      var front := fills[..|fills| - 1];
      RemainingIsRest(amounts, front, l);
      SumToSame(|front|, b => Cell(front, b, l), b => Cell(fills, b, l));
    }
  }

  lemma {:induction false} RestsStayNonNegative(bs: seq<Borrower>, rates: seq<int>, amounts: seq<int>)
    requires Market(bs, rates, amounts)
    ensures NonNegative(Remaining(amounts, Match(bs, rates, amounts)))
  {
    if bs != [] {
      var front, b := bs[..|bs| - 1], bs[|bs| - 1];
      RestsStayNonNegative(front, rates, amounts);
      var before := Match(front, rates, amounts);
      VisitBounds(rates, Remaining(amounts, before), b.limit, b.amount);
      assert Match(bs, rates, amounts)[..|bs| - 1] == before;
    }
  }

  /** Serving the first k borrowers is the first k steps of serving them all. */
  lemma {:induction false} ServesPrefix(bs: seq<Borrower>, rates: seq<int>, amounts: seq<int>, k: nat)
    requires |amounts| == |rates| && k <= |bs|
    ensures Match(bs[..k], rates, amounts) == Match(bs, rates, amounts)[..k]
  {
    if k == |bs| {
      assert bs[..k] == bs;
    } else {
      var front := bs[..|bs| - 1];
      assert front[..k] == bs[..k];
      ServesPrefix(front, rates, amounts, k);
    }
  }

  /** Borrower b's fills are its walk over what the borrowers before it left. */
  lemma {:induction false} ServedInTurn(bs: seq<Borrower>, rates: seq<int>, amounts: seq<int>, b: nat)
    requires Market(bs, rates, amounts) && b < |bs|
    ensures var fills := Match(bs, rates, amounts);
      var rem := Remaining(amounts, fills[..b]);
      && NonNegative(rem)
      && fills[b] == Visit(rates, rem, bs[b].limit, bs[b].amount)
      && Remaining(amounts, fills[..b + 1]) == Reduce(rem, fills[b])
  {
    var fills := Match(bs, rates, amounts);
    ServesPrefix(bs, rates, amounts, b + 1);
    ServesPrefix(bs, rates, amounts, b);
    assert bs[..b + 1][..b] == bs[..b];
    assert fills[..b + 1][..b] == fills[..b];
    RestsStayNonNegative(bs[..b], rates, amounts);
    assert fills[b] == fills[..b + 1][b];
  }

  /** No borrower is overfilled. */
  lemma {:induction false} BorrowerNotOverfilled(bs: seq<Borrower>, rates: seq<int>, amounts: seq<int>, b: nat)
    requires Market(bs, rates, amounts) && b < |bs|
    ensures var fills := Match(bs, rates, amounts);
      && |fills[b]| <= |rates| && NonNegative(fills[b])
      && 0 <= BorrowerTotal(fills, b) <= bs[b].amount
  {
    ServedInTurn(bs, rates, amounts, b);
    VisitBounds(rates, Remaining(amounts, Match(bs, rates, amounts)[..b]), bs[b].limit, bs[b].amount);
  }

  /** No lender is overfilled. */
  lemma {:induction false} LenderNotOverfilled(bs: seq<Borrower>, rates: seq<int>, amounts: seq<int>, l: nat)
    requires Market(bs, rates, amounts) && l < |rates|
    ensures 0 <= LenderTotal(Match(bs, rates, amounts), l) <= amounts[l]
  {
    var fills := Match(bs, rates, amounts);
    RestsStayNonNegative(bs, rates, amounts);
    RemainingIsRest(amounts, fills, l);
    forall b | 0 <= b < |fills| ensures 0 <= Cell(fills, b, l) {
      BorrowerNotOverfilled(bs, rates, amounts, b);
    }
    SumToMonotone(|fills|, _ => 0, b => Cell(fills, b, l));
    SumToZero(|fills|, _ => 0);
  }

  /** Serving more borrowers never gives a lender anything back. */
  lemma {:induction false} RemainingShrinks(bs: seq<Borrower>, rates: seq<int>, amounts: seq<int>, k: nat, l: nat)
    requires Market(bs, rates, amounts) && k <= |bs| && l < |rates|
    ensures var fills := Match(bs, rates, amounts);
      0 <= Remaining(amounts, fills)[l] <= Remaining(amounts, fills[..k])[l]
    decreases |bs| - k
  {
    var fills := Match(bs, rates, amounts);
    RestsStayNonNegative(bs, rates, amounts);
    if k == |bs| {
      assert fills[..k] == fills;
    } else {
      RemainingShrinks(bs, rates, amounts, k + 1, l);
      ServedInTurn(bs, rates, amounts, k);
      BorrowerNotOverfilled(bs, rates, amounts, k);
    }
  }

  /** What the borrowers receive in all is what the lenders give in all. */
  lemma {:induction false} Conserves(bs: seq<Borrower>, rates: seq<int>, amounts: seq<int>)
    requires Market(bs, rates, amounts)
    ensures var fills := Match(bs, rates, amounts);
      Volume(fills) == SumTo(|rates|, l => LenderTotal(fills, l))
  {
    var fills := Match(bs, rates, amounts);
    var n, x := |rates|, (b, l) => Cell(fills, b, l);
    forall b | 0 <= b < |fills|
      ensures BorrowerTotal(fills, b) == SumTo(n, l => x(b, l))
    {
      BorrowerNotOverfilled(bs, rates, amounts, b);
      RowSum(fills, b, n);
      SumToSame(n, l => Cell(fills, b, l), l => x(b, l));
    }
    forall l | 0 <= l < n
      ensures LenderTotal(fills, l) == SumTo(|fills|, b => x(b, l))
    {
      SumToSame(|fills|, b => Cell(fills, b, l), b => x(b, l));
    }
    SumToSwap(|fills|, n, x);
    SumToSame(|fills|, b => BorrowerTotal(fills, b), b => SumTo(n, l => x(b, l)));
    SumToSame(n, l => LenderTotal(fills, l), l => SumTo(|fills|, b => x(b, l)));
  }

  lemma {:induction false} RowSum(fills: seq<seq<int>>, b: nat, n: nat)
    requires b < |fills| && |fills[b]| <= n
    ensures BorrowerTotal(fills, b) == SumTo(n, l => Cell(fills, b, l))
    decreases n
  {
    if n == |fills[b]| {
      SumToSeq(fills[b], l => Cell(fills, b, l));
    } else {
      RowSum(fills, b, n - 1);
    }
  }

  /** Lender l right after borrower b: emptied if b went past it, or visited it and still
      needs more; and if b still needs more, any lender it did not visit is too dear. */
  lemma {:induction false} AfterBorrower(bs: seq<Borrower>, rates: seq<int>, amounts: seq<int>, b: nat, l: nat)
    requires Market(bs, rates, amounts) && b < |bs| && l < |rates|
    ensures var fill := Match(bs, rates, amounts)[b];
      var short := Sum(fill) < bs[b].amount;
      && |fill| <= |rates|
      && (l < |fill| ==> rates[l] <= bs[b].limit)
      && (l < |fill| && (l < |fill| - 1 || short) ==> Remaining(amounts, Match(bs, rates, amounts)[..b + 1])[l] == 0)
      && (|fill| <= l && short ==> bs[b].limit < rates[l])
  {
    var fills := Match(bs, rates, amounts);
    ServedInTurn(bs, rates, amounts, b);
    VisitBounds(rates, Remaining(amounts, fills[..b]), bs[b].limit, bs[b].amount);
    VisitEmpties(rates, Remaining(amounts, fills[..b]), bs[b].limit, bs[b].amount);
    VisitStops(rates, Remaining(amounts, fills[..b]), bs[b].limit, bs[b].amount);
    if |fills[b]| <= l {
      assert rates[|fills[b]|] <= rates[l];
    }
  }

  /** Maximality: when matching ends, a borrower still short and a lender with something
      left never agree on a rate. */
  lemma {:induction false} NoAgreeablePairLeft(bs: seq<Borrower>, rates: seq<int>, amounts: seq<int>, b: nat, l: nat)
    requires Market(bs, rates, amounts) && b < |bs| && l < |rates|
    requires BorrowerTotal(Match(bs, rates, amounts), b) < bs[b].amount
    requires 0 < Remaining(amounts, Match(bs, rates, amounts))[l]
    ensures bs[b].limit < rates[l]
  {
    AfterBorrower(bs, rates, amounts, b, l);
    RemainingShrinks(bs, rates, amounts, b + 1, l);
  }

  /** Price priority: a lender serves a borrower only once every lender before it is empty. */
  lemma {:induction false} CheaperLendersFirst(bs: seq<Borrower>, rates: seq<int>, amounts: seq<int>, b: nat, l: nat,
                                               cheaper: nat)
    requires Market(bs, rates, amounts) && b < |bs| && cheaper < l < |rates|
    requires Cell(Match(bs, rates, amounts), b, l) > 0
    ensures Remaining(amounts, Match(bs, rates, amounts)[..b + 1])[cheaper] == 0
    ensures Remaining(amounts, Match(bs, rates, amounts))[cheaper] == 0
  {
    AfterBorrower(bs, rates, amounts, b, cheaper);
    assert l < |Match(bs, rates, amounts)[b]|;
    assert Remaining(amounts, Match(bs, rates, amounts)[..b + 1])[cheaper] == 0;
    RemainingShrinks(bs, rates, amounts, b + 1, cheaper);
  }

  lemma {:induction false} EmptiedStays(bs: seq<Borrower>, rates: seq<int>, amounts: seq<int>,
                                         k: nat, late: nat, l: nat)
    requires Market(bs, rates, amounts) && k <= late <= |bs| && l < |rates|
    requires Remaining(amounts, Match(bs, rates, amounts)[..k])[l] == 0
    ensures Remaining(amounts, Match(bs, rates, amounts)[..late])[l] == 0
  {
    var fills := Match(bs, rates, amounts);
    ServesPrefix(bs, rates, amounts, late);
    assert fills[..late][..k] == fills[..k];
    RemainingShrinks(bs[..late], rates, amounts, k, l);
  }

  lemma {:induction false} NothingToTake(bs: seq<Borrower>, rates: seq<int>, amounts: seq<int>, b: nat, l: nat)
    requires Market(bs, rates, amounts) && b < |bs| && l < |rates|
    requires Remaining(amounts, Match(bs, rates, amounts)[..b])[l] == 0
    ensures Cell(Match(bs, rates, amounts), b, l) == 0
  {
    ServedInTurn(bs, rates, amounts, b);
    VisitBounds(rates, Remaining(amounts, Match(bs, rates, amounts)[..b]), bs[b].limit, bs[b].amount);
  }

  /** Service priority: once a borrower has ended short, no later one gets anything from a lender
      whose rate it accepted. */
  lemma {:induction false} ShortLeavesNothing(bs: seq<Borrower>, rates: seq<int>, amounts: seq<int>,
                                              early: nat, late: nat, l: nat)
    requires Market(bs, rates, amounts) && early < late < |bs| && l < |rates|
    requires BorrowerTotal(Match(bs, rates, amounts), early) < bs[early].amount && rates[l] <= bs[early].limit
    ensures Cell(Match(bs, rates, amounts), late, l) == 0
  {
    AfterBorrower(bs, rates, amounts, early, l);
    EmptiedStays(bs, rates, amounts, early + 1, late, l);
    NothingToTake(bs, rates, amounts, late, l);
  }

  /** An emptied prefix, one lender partly used, an untouched rest. */
  ghost predicate Staircase(amounts: seq<int>, rem: seq<int>)
    requires |rem| == |amounts|
  {
    exists k :: 0 <= k <= |rem| && StepAt(amounts, rem, k)
  }

  predicate StepAt(amounts: seq<int>, rem: seq<int>, k: nat)
    requires |rem| == |amounts|
  {
    && (forall i :: 0 <= i < k && i < |rem| ==> rem[i] == 0)
    && (k < |rem| ==> 0 <= rem[k] <= amounts[k])
    && (forall i :: k < i < |rem| ==> rem[i] == amounts[i])
  }

  /** After every borrower, in service order, the lenders form a staircase. */
  lemma {:induction false} LendersFormStaircase(bs: seq<Borrower>, rates: seq<int>, amounts: seq<int>, served: nat)
    requires Market(bs, rates, amounts) && served <= |bs|
    ensures Staircase(amounts, Remaining(amounts, Match(bs, rates, amounts)[..served]))
    decreases served
  {
    var fills := Match(bs, rates, amounts);
    if served == 0 {
      assert StepAt(amounts, amounts, 0);
    } else {
      var b := served - 1;
      LendersFormStaircase(bs, rates, amounts, b);
      WalkEmptiesPrefix(bs, rates, amounts, b);
      StairStep(amounts, Remaining(amounts, fills[..b]), fills[b]);
    }
  }

  lemma {:induction false} WalkEmptiesPrefix(bs: seq<Borrower>, rates: seq<int>, amounts: seq<int>, b: nat)
    requires Market(bs, rates, amounts) && b < |bs|
    ensures var fills := Match(bs, rates, amounts);
      var rem, f := Remaining(amounts, fills[..b]), fills[b];
      && Remaining(amounts, fills[..b + 1]) == Reduce(rem, f)
      && |f| <= |rates|
      && (forall i :: 0 <= i < |f| ==> 0 <= f[i] <= rem[i])
      && (forall i :: 0 <= i < |f| - 1 ==> f[i] == rem[i])
  {
    ServedInTurn(bs, rates, amounts, b);
    var rem := Remaining(amounts, Match(bs, rates, amounts)[..b]);
    VisitBounds(rates, rem, bs[b].limit, bs[b].amount);
    VisitEmpties(rates, rem, bs[b].limit, bs[b].amount);
  }

  lemma StairStep(amounts: seq<int>, rem: seq<int>, f: seq<int>)
    requires |f| <= |rem| == |amounts| && Staircase(amounts, rem)
    requires forall i :: 0 <= i < |f| ==> 0 <= f[i] <= rem[i]
    requires forall i :: 0 <= i < |f| - 1 ==> f[i] == rem[i]
    ensures Staircase(amounts, Reduce(rem, f))
  {
    var k :| 0 <= k <= |rem| && StepAt(amounts, rem, k);
    assert StepAt(amounts, Reduce(rem, f), if |f| <= k then k else |f| - 1);
  }
}
