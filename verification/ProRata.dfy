/** The sibling matching engine: a borrower takes from a whole rate bucket at once, and the
    lenders of the bucket give in proportion to what they have left. Amounts are reals, and the
    division that computes a proportion is a parameter, exact or rounded. */
module ProRata {
  import opened Sums
  import opened AuctionMatching

  type Division = (real, real) -> real

  datatype Bucket = Bucket(rate: real, remains: seq<real>)

  /** A borrower as it enters a round: what it pays at most, and what it still asks for. */
  datatype Asker = Asker(limit: real, amount: real)

  /** What a borrower leaves of a bucket, or of all, the amounts of its records, and what it
      still needs. */
  datatype Part = Part(bucket: Bucket, records: seq<real>, need: real)

  datatype Served = Served(buckets: seq<Bucket>, records: seq<real>, need: real)

  ghost predicate Close(d: Division, e: real) {
    forall a, b :: b > 0.0 ==> a / b - e <= d(a, b) <= a / b + e
  }

  ghost predicate Exact(d: Division) {
    Close(d, 0.0)
  }

  function Total(s: seq<real>): real {
    if s == [] then 0.0 else Total(s[..|s| - 1]) + s[|s| - 1]
  }

  function Lesser(a: real, b: real): real {
    if a > b then b else a
  }

  /** What one lender gives. */
  function ShareOf(remain: real, sum: real, reduce: real, d: Division): real {
    reduce * d(remain, sum)
  }

  function Shares(remains: seq<real>, sum: real, reduce: real, d: Division): (s: seq<real>)
    ensures |s| == |remains| && forall i :: 0 <= i < |s| ==> s[i] == ShareOf(remains[i], sum, reduce, d)
  {
    seq(|remains|, i requires 0 <= i < |remains| => ShareOf(remains[i], sum, reduce, d))
  }

  function Given(remains: seq<real>, shares: seq<real>): (s: seq<real>)
    requires |shares| == |remains|
    ensures |s| == |remains| && forall i :: 0 <= i < |s| ==> s[i] == remains[i] - shares[i]
  {
    seq(|remains|, i requires 0 <= i < |remains| => remains[i] - shares[i])
  }

  /** A bucket takes part when it is cheap enough and has something left in all. */
  predicate TakesPart(b: Bucket, limit: real, need: real) {
    need > 0.0 && |b.remains| > 0 && limit >= b.rate && Total(b.remains) > 0.0
  }

  function ServeBucket(b: Bucket, limit: real, need: real, d: Division): Part {
    if !TakesPart(b, limit, need) then Part(b, [], need)
    else
      var reduce := Lesser(Total(b.remains), need);
      var shares := Shares(b.remains, Total(b.remains), reduce, d);
      Part(b.(remains := Given(b.remains, shares)), shares, need - reduce)
  }

  /** One borrower's way through the buckets, from the first on. */
  function Serve(buckets: seq<Bucket>, limit: real, need: real, d: Division): (s: Served)
    ensures |s.buckets| == |buckets|
  {
    if buckets == [] then Served([], [], need)
    else
      var part := ServeBucket(buckets[0], limit, need, d);
      var rest := Serve(buckets[1..], limit, part.need, d);
      Served([part.bucket] + rest.buckets, part.records + rest.records, rest.need)
  }

  method SumOf(remains: seq<real>) returns (sum: real)
    ensures sum == Total(remains)
  {
    sum := 0.0;
    for i := 0 to |remains|
      invariant sum == Total(remains[..i])
    {
      sum := sum + remains[i];
      assert remains[..i + 1][..i] == remains[..i];
    }
    assert remains[..|remains|] == remains;
  }

  method SplitBucket(remains: seq<real>, sumLendAmount: real, reduceAmount: real, d: Division)
    returns (left: seq<real>, shares: seq<real>)
    ensures shares == Shares(remains, sumLendAmount, reduceAmount, d)
    ensures left == Given(remains, shares)
  {
    left, shares := remains, [];
    for i := 0 to |remains|
      invariant |shares| == i && |left| == |remains|
      invariant forall k :: 0 <= k < i ==> shares[k] == ShareOf(remains[k], sumLendAmount, reduceAmount, d)
      invariant forall k :: 0 <= k < i ==> left[k] == remains[k] - shares[k]
      invariant forall k :: i <= k < |left| ==> left[k] == remains[k]
    {
      var lendAmount := ShareOf(remains[i], sumLendAmount, reduceAmount, d);
      shares := shares + [lendAmount];
      left := left[i := left[i] - lendAmount];
    }
    assert shares == Shares(remains, sumLendAmount, reduceAmount, d);
    assert left == Given(remains, shares);
  }

  /** One bucket's turn. An empty or too dear bucket is passed over before its rests are added
      up, and one with nothing left in all after. */
  method TakeFromBucket(b: Bucket, limit: real, remainBorrowAmount: real, d: Division) returns (p: Part)
    requires remainBorrowAmount > 0.0
    ensures p == ServeBucket(b, limit, remainBorrowAmount, d)
  {
    p := Part(b, [], remainBorrowAmount);
    if |b.remains| > 0 && limit >= b.rate {
      var sumLendAmount := SumOf(b.remains);
      if sumLendAmount <= 0.0 {
        return;
      }
      var reduceAmount := if sumLendAmount > remainBorrowAmount then remainBorrowAmount else sumLendAmount;
      var left, shares := SplitBucket(b.remains, sumLendAmount, reduceAmount, d);
      p := Part(b.(remains := left), shares, remainBorrowAmount - reduceAmount);
    }
  }

  lemma {:induction false} NothingNeeded(buckets: seq<Bucket>, limit: real, need: real, d: Division)
    requires need <= 0.0
    ensures Serve(buckets, limit, need, d) == Served(buckets, [], need)
  {
    if buckets != [] { NothingNeeded(buckets[1..], limit, need, d); }
  }

  /** What is done, and what serving the rest will add to it. */
  ghost predicate UnderWay(goal: Served, done: Served, rest: seq<Bucket>, limit: real, d: Division) {
    var more := Serve(rest, limit, done.need, d);
    goal == Served(done.buckets + more.buckets, done.records + more.records, more.need)
  }

  lemma UnderWayStep(goal: Served, done: Served, rest: seq<Bucket>, limit: real, d: Division)
    requires rest != [] && UnderWay(goal, done, rest, limit, d)
    ensures var p := ServeBucket(rest[0], limit, done.need, d);
      UnderWay(goal, Served(done.buckets + [p.bucket], done.records + p.records, p.need), rest[1..], limit, d)
  {
    var p := ServeBucket(rest[0], limit, done.need, d);
    var more := Serve(rest[1..], limit, p.need, d);
    assert done.buckets + ([p.bucket] + more.buckets) == done.buckets + [p.bucket] + more.buckets;
    assert done.records + (p.records + more.records) == done.records + p.records + more.records;
  }

  method ServeBorrower(buckets: seq<Bucket>, limit: real, need: real, d: Division) returns (s: Served)
    ensures s == Serve(buckets, limit, need, d)
  {
    s := Served([], [], need);
    var j := 0;
    while j < |buckets|
      invariant 0 <= j <= |buckets|
      invariant UnderWay(Serve(buckets, limit, need, d), s, buckets[j..], limit, d)
    {
      if s.need <= 0.0 {
        NothingNeeded(buckets[j..], limit, s.need, d);
        s := s.(buckets := s.buckets + buckets[j..]);
        assert s.records + [] == s.records;
        return;
      }
      var p := TakeFromBucket(buckets[j], limit, s.need, d);
      UnderWayStep(Serve(buckets, limit, need, d), s, buckets[j..], limit, d);
      assert buckets[j..][1..] == buckets[j + 1..];
      s := Served(s.buckets + [p.bucket], s.records + p.records, p.need);
      j := j + 1;
    }
    assert s.buckets + [] == s.buckets && s.records + [] == s.records;
  }

  // ---------- One bucket ----------

  predicate NonNegativeReals(s: seq<real>) {
    forall i :: 0 <= i < |s| ==> s[i] >= 0.0
  }

  function Portion(r: real, f: real): real {
    r * f
  }

  function Portions(s: seq<real>, f: real): (t: seq<real>)
    ensures |t| == |s| && forall i :: 0 <= i < |t| ==> t[i] == Portion(s[i], f)
  {
    seq(|s|, i requires 0 <= i < |s| => Portion(s[i], f))
  }

  lemma {:induction false} PortionsTotal(s: seq<real>, f: real)
    ensures Total(Portions(s, f)) == Portion(Total(s), f)
    decreases |s|
  {
    if s != [] {
      var init := s[..|s| - 1];
      PortionsTotal(init, f);
      forall i | 0 <= i < |init|
        ensures Portions(s, f)[i] == Portions(init, f)[i]
      {
        assert init[i] == s[i];
      }
      assert Portions(s, f)[..|s| - 1] == Portions(init, f);
      PortionOfSum(Total(init), s[|s| - 1], f);
    }
  }

  lemma PortionOfSum(a: real, b: real, f: real)
    ensures Portion(a + b, f) == Portion(a, f) + Portion(b, f)
  {
  }

  /** The error of n roundings of x each. */
  function Slack(n: nat, x: real): real {
    if n == 0 then 0.0 else Slack(n - 1, x) + x
  }

  lemma {:induction false} TotalsClose(s: seq<real>, t: seq<real>, x: real)
    requires |s| == |t| && forall i :: 0 <= i < |s| ==> t[i] - x <= s[i] <= t[i] + x
    ensures Total(t) - Slack(|s|, x) <= Total(s) <= Total(t) + Slack(|s|, x)
    decreases |s|
  {
    if s != [] { TotalsClose(s[..|s| - 1], t[..|t| - 1], x); }
  }

  lemma ProductGrows(x: real, y: real, f: real)
    requires f >= 0.0
    ensures x <= y ==> f * x <= f * y
  {
    if x <= y { assert f * y == f * x + f * (y - x); }
  }

  lemma ProductAround(q: real, x: real, e: real, f: real)
    requires f >= 0.0 && q - e <= x <= q + e
    ensures f * q - f * e <= f * x <= f * q + f * e
  {
    ProductGrows(q - e, x, f);
    ProductGrows(x, q + e, f);
  }

  lemma SwapFactors(r: real, sum: real, reduce: real)
    requires sum > 0.0
    ensures reduce * (r / sum) == Portion(r, reduce / sum)
  {
    assert reduce * (r / sum) == reduce * r / sum == r * (reduce / sum);
  }

  function Rounding(reduce: real, e: real): real {
    reduce * e
  }

  /** One share is its lender's rest times the common fraction, up to one rounding. */
  lemma ShareClose(r: real, sum: real, reduce: real, d: Division, e: real)
    requires Close(d, e) && sum > 0.0 && reduce >= 0.0
    ensures Portion(r, reduce / sum) - Rounding(reduce, e)
         <= ShareOf(r, sum, reduce, d)
         <= Portion(r, reduce / sum) + Rounding(reduce, e)
  {
    ProductAround(r / sum, d(r, sum), e, reduce);
    SwapFactors(r, sum, reduce);
  }

  lemma SharesClose(remains: seq<real>, sum: real, reduce: real, d: Division, e: real)
    requires Close(d, e) && sum > 0.0 && reduce >= 0.0
    ensures var s, t, x := Shares(remains, sum, reduce, d), Portions(remains, reduce / sum), Rounding(reduce, e);
      forall i :: 0 <= i < |remains| ==> t[i] - x <= s[i] <= t[i] + x
  {
    forall i | 0 <= i < |remains|
      ensures Portions(remains, reduce / sum)[i] - Rounding(reduce, e) <= Shares(remains, sum, reduce, d)[i]
           <= Portions(remains, reduce / sum)[i] + Rounding(reduce, e)
    {
      ShareClose(remains[i], sum, reduce, d, e);
    }
  }

  lemma WholePortion(sum: real, reduce: real)
    requires sum > 0.0
    ensures Portion(sum, reduce / sum) == reduce
  {
  }

  /** The shares of a bucket add up to what is taken from it, up to one rounding per lender. */
  lemma {:induction false} SharesAddUp(remains: seq<real>, reduce: real, d: Division, e: real)
    requires Close(d, e) && Total(remains) > 0.0 && reduce >= 0.0
    ensures var t, slack := Total(Shares(remains, Total(remains), reduce, d)), Slack(|remains|, Rounding(reduce, e));
      reduce - slack <= t <= reduce + slack
  {
    var sum := Total(remains);
    SharesClose(remains, sum, reduce, d, e);
    TotalsClose(Shares(remains, sum, reduce, d), Portions(remains, reduce / sum), Rounding(reduce, e));
    PortionsTotal(remains, reduce / sum);
    WholePortion(sum, reduce);
  }

  lemma PortionBetween(r: real, sum: real, reduce: real)
    requires r >= 0.0 && sum > 0.0 && 0.0 <= reduce <= sum
    ensures 0.0 <= Portion(r, reduce / sum) <= r
  {
    var f := reduce / sum;
    assert 0.0 <= f <= 1.0;
    ProductGrows(0.0, f, r);
    ProductGrows(f, 1.0, r);
  }

  lemma {:induction false} NoRounding(n: nat, reduce: real)
    ensures Rounding(reduce, 0.0) == 0.0 && Slack(n, 0.0) == 0.0
  {
    if n > 0 { NoRounding(n - 1, reduce); }
  }

  /** With exact division every lender of the bucket gives the same fraction of what it has
      left, nobody gives more than that, and the shares add up to what is taken. */
  lemma {:induction false} ExactShares(remains: seq<real>, reduce: real, d: Division)
    requires Exact(d) && NonNegativeReals(remains) && Total(remains) > 0.0 && 0.0 <= reduce <= Total(remains)
    ensures var sum := Total(remains);
      var shares := Shares(remains, sum, reduce, d);
      && Total(shares) == reduce
      && forall i ::
        0 <= i < |remains| ==> shares[i] == Portion(remains[i], reduce / sum) && 0.0 <= shares[i] <= remains[i]
  {
    var sum := Total(remains);
    NoRounding(|remains|, reduce);
    SharesAddUp(remains, reduce, d, 0.0);
    forall i | 0 <= i < |remains|
      ensures ShareOf(remains[i], sum, reduce, d) == Portion(remains[i], reduce / sum)
        && 0.0 <= Portion(remains[i], reduce / sum) <= remains[i]
    {
      ShareClose(remains[i], sum, reduce, d, 0.0);
      PortionBetween(remains[i], sum, reduce);
    }
  }

  // ---------- One borrower ----------

  lemma {:induction false} TotalConcat(s: seq<real>, t: seq<real>)
    ensures Total(s + t) == Total(s) + Total(t)
    decreases |t|
  {
    if t == [] {
      assert s + t == s;
    } else {
      TotalConcat(s, t[..|t| - 1]);
      assert (s + t)[..|s + t| - 1] == s + t[..|t| - 1];
    }
  }

  lemma {:induction false} GivenTotal(remains: seq<real>, shares: seq<real>)
    requires |shares| == |remains|
    ensures Total(Given(remains, shares)) == Total(remains) - Total(shares)
    decreases |remains|
  {
    if remains != [] {
      var k := |remains| - 1;
      GivenTotal(remains[..k], shares[..k]);
      assert Given(remains, shares)[..k] == Given(remains[..k], shares[..k]);
    }
  }

  lemma {:induction false} TotalNonNegative(s: seq<real>)
    requires NonNegativeReals(s)
    ensures Total(s) >= 0.0
    decreases |s|
  {
    if s != [] { TotalNonNegative(s[..|s| - 1]); }
  }

  lemma {:induction false} SlackAdds(n: nat, a: real, b: real, e: real)
    ensures Slack(n, Rounding(a, e)) + Slack(n, Rounding(b, e)) == Slack(n, Rounding(a + b, e))
  {
    if n > 0 { SlackAdds(n - 1, a, b, e); }
  }

  lemma {:induction false} SlackGrows(m: nat, n: nat, a: real, e: real)
    requires m <= n && a >= 0.0 && e >= 0.0
    ensures Slack(m, Rounding(a, e)) <= Slack(n, Rounding(a, e))
    decreases n
  {
    if m < n {
      ProductGrows(0.0, e, a);
      SlackGrows(m, n - 1, a, e);
    }
  }

  function Gap(a: real, b: real): real {
    if a < b then b - a else a - b
  }

  /** By how much the records from a bucket miss what is taken from it. */
  function Miss(b: Bucket, limit: real, need: real, d: Division): real {
    var p := ServeBucket(b, limit, need, d);
    Gap(Total(p.records), need - p.need)
  }

  /** The same, added up along a borrower's way. */
  function Misses(buckets: seq<Bucket>, limit: real, need: real, d: Division): real {
    if buckets == [] then 0.0
    else Miss(buckets[0], limit, need, d) + Misses(buckets[1..], limit, ServeBucket(buckets[0], limit, need, d).need, d)
  }

  lemma BucketMiss(b: Bucket, limit: real, need: real, d: Division, e: real, n: nat)
    requires Close(d, e) && e >= 0.0 && |b.remains| <= n
    ensures var p := ServeBucket(b, limit, need, d);
      p.need <= need && Miss(b, limit, need, d) <= Slack(n, Rounding(need - p.need, e))
  {
    if TakesPart(b, limit, need) {
      var reduce := Lesser(Total(b.remains), need);
      SharesAddUp(b.remains, reduce, d, e);
      SlackGrows(|b.remains|, n, reduce, e);
    } else {
      SlackAdds(n, 0.0, 0.0, e);
    }
  }

  lemma {:induction false} MissesSmall(buckets: seq<Bucket>, limit: real, need: real, d: Division, e: real, n: nat)
    requires Close(d, e) && e >= 0.0 && SizesUpTo(buckets, n)
    ensures var s := Serve(buckets, limit, need, d);
      s.need <= need && Misses(buckets, limit, need, d) <= Slack(n, Rounding(need - s.need, e))
    decreases |buckets|
  {
    if buckets == [] {
      SlackAdds(n, 0.0, 0.0, e);
    } else {
      var p := ServeBucket(buckets[0], limit, need, d);
      BucketMiss(buckets[0], limit, need, d, e, n);
      MissesSmall(buckets[1..], limit, p.need, d, e, n);
      SlackAdds(n, need - p.need, p.need - Serve(buckets[1..], limit, p.need, d).need, e);
    }
  }

  lemma {:induction false} RecordsMiss(buckets: seq<Bucket>, limit: real, need: real, d: Division)
    ensures var s := Serve(buckets, limit, need, d);
      Gap(Total(s.records), need - s.need) <= Misses(buckets, limit, need, d)
    decreases |buckets|
  {
    if buckets != [] {
      var p := ServeBucket(buckets[0], limit, need, d);
      RecordsMiss(buckets[1..], limit, p.need, d);
      TotalConcat(p.records, Serve(buckets[1..], limit, p.need, d).records);
    }
  }

  predicate SizesUpTo(buckets: seq<Bucket>, n: nat) {
    forall i :: 0 <= i < |buckets| ==> |buckets[i].remains| <= n
  }

  /** Whatever the rounding, the records of a borrower add up to what it no longer needs, up to
      one rounding of that per lender of the largest bucket. */
  lemma {:induction false} RecordsAddUp(buckets: seq<Bucket>, limit: real, need: real, d: Division, e: real, n: nat)
    requires Close(d, e) && e >= 0.0 && SizesUpTo(buckets, n)
    ensures var s := Serve(buckets, limit, need, d);
      var slack := Slack(n, Rounding(need - s.need, e));
      need - s.need >= 0.0 && need - s.need - slack <= Total(s.records) <= need - s.need + slack
  {
    MissesSmall(buckets, limit, need, d, e, n);
    RecordsMiss(buckets, limit, need, d);
  }

  /** What the lenders at rates up to r have left. */
  function Supply(buckets: seq<Bucket>, r: real): real {
    if buckets == [] then 0.0
    else (if buckets[0].rate <= r then Total(buckets[0].remains) else 0.0) + Supply(buckets[1..], r)
  }

  predicate RatesRise(buckets: seq<Bucket>) {
    forall i, j :: 0 <= i < j < |buckets| ==> buckets[i].rate <= buckets[j].rate
  }

  predicate Solvent(buckets: seq<Bucket>) {
    forall i :: 0 <= i < |buckets| ==> NonNegativeReals(buckets[i].remains)
  }

  lemma {:induction false} NoSupplyBelow(buckets: seq<Bucket>, r: real)
    requires forall i :: 0 <= i < |buckets| ==> r < buckets[i].rate
    ensures Supply(buckets, r) == 0.0
    decreases |buckets|
  {
    if buckets != [] { NoSupplyBelow(buckets[1..], r); }
  }

  lemma {:induction false} SupplyNonNegative(buckets: seq<Bucket>, r: real)
    requires Solvent(buckets)
    ensures Supply(buckets, r) >= 0.0
    decreases |buckets|
  {
    if buckets != [] {
      TotalNonNegative(buckets[0].remains);
      SupplyNonNegative(buckets[1..], r);
    }
  }

  function LowerRate(r: real, limit: real): real {
    if r < limit then r else limit
  }

  /** One bucket with exact division: it loses what the borrower takes, which is all of it or
      all the borrower needs. */
  lemma BucketDrains(b: Bucket, limit: real, need: real, d: Division)
    requires Exact(d) && NonNegativeReals(b.remains) && need >= 0.0
    ensures var p := ServeBucket(b, limit, need, d);
      && p.bucket.rate == b.rate && NonNegativeReals(p.bucket.remains) && Total(b.remains) >= 0.0
      && Total(p.records) == need - p.need == (if b.rate <= limit then Lesser(Total(b.remains), need) else 0.0)
      && Total(p.bucket.remains) == Total(b.remains) - (need - p.need)
  {
    TotalNonNegative(b.remains);
    if TakesPart(b, limit, need) {
      var reduce := Lesser(Total(b.remains), need);
      ExactShares(b.remains, reduce, d);
      GivenTotal(b.remains, Shares(b.remains, Total(b.remains), reduce, d));
    }
  }

  /** With exact division a borrower receives what it needs or all there is at agreeable
      rates, and no lender is overfilled. */
  lemma {:induction false} ServeFills(buckets: seq<Bucket>, limit: real, need: real, d: Division)
    requires Exact(d) && Solvent(buckets) && RatesRise(buckets) && need >= 0.0
    ensures var s := Serve(buckets, limit, need, d);
      && Solvent(s.buckets)
      && (forall i :: 0 <= i < |buckets| ==> s.buckets[i].rate == buckets[i].rate)
      && Total(s.records) == need - s.need == Lesser(Supply(buckets, limit), need)
    decreases |buckets|
  {
    if buckets != [] {
      var p := ServeBucket(buckets[0], limit, need, d);
      BucketDrains(buckets[0], limit, need, d);
      ServeFills(buckets[1..], limit, p.need, d);
      TotalConcat(p.records, Serve(buckets[1..], limit, p.need, d).records);
      SupplyNonNegative(buckets[1..], limit);
      if limit < buckets[0].rate { NoSupplyBelow(buckets[1..], limit); }
    }
  }

  /** It drains the supply from its cheap end: up to any rate, what is gone is what it needs or
      all there was at agreeable rates. */
  lemma {:induction false} ServeDrains(buckets: seq<Bucket>, limit: real, need: real, d: Division, r: real)
    requires Exact(d) && Solvent(buckets) && RatesRise(buckets) && need >= 0.0
    ensures Supply(Serve(buckets, limit, need, d).buckets, r)
         == Supply(buckets, r) - Lesser(Supply(buckets, LowerRate(r, limit)), need)
    decreases |buckets|
  {
    if buckets != [] {
      var b, tail := buckets[0], buckets[1..];
      var p := ServeBucket(b, limit, need, d);
      BucketDrains(b, limit, need, d);
      ServeDrains(tail, limit, p.need, d, r);
      SupplyNonNegative(tail, LowerRate(r, limit));
      if LowerRate(r, limit) < b.rate { NoSupplyBelow(tail, LowerRate(r, limit)); }
      assert Serve(buckets, limit, need, d).buckets[1..] == Serve(tail, limit, p.need, d).buckets;
    }
  }

  // ---------- The two engines ----------

  /** What lenders standing one by one at rates up to r have left. */
  function Below(rates: seq<int>, rem: seq<int>, r: real): int
    requires |rem| == |rates|
  {
    if rates == [] then 0 else (if rates[0] as real <= r then rem[0] else 0) + Below(rates[1..], rem[1..], r)
  }

  function Least(a: int, b: int): int {
    if a > b then b else a
  }

  lemma {:induction false} NothingBelow(rates: seq<int>, rem: seq<int>, r: real)
    requires |rem| == |rates| && forall i :: 0 <= i < |rates| ==> r < rates[i] as real
    ensures Below(rates, rem, r) == 0
  {
    if rates != [] { NothingBelow(rates[1..], rem[1..], r); }
  }

  lemma {:induction false} BelowNonNegative(rates: seq<int>, rem: seq<int>, r: real)
    requires |rem| == |rates| && NonNegative(rem)
    ensures Below(rates, rem, r) >= 0
  {
    if rates != [] { BelowNonNegative(rates[1..], rem[1..], r); }
  }

  lemma {:induction false} WalkTakes(rates: seq<int>, rem: seq<int>, limit: int, need: int)
    requires |rem| == |rates| && NonNegative(rem) && Ascending(rates) && need >= 0
    ensures Sum(Visit(rates, rem, limit, need)) == Least(Below(rates, rem, limit as real), need)
  {
    BelowNonNegative(rates, rem, limit as real);
    var f := Visit(rates, rem, limit, need);
    if f == [] {
      if rates != [] && limit < rates[0] { NothingBelow(rates, rem, limit as real); }
    } else {
      WalkTakes(rates[1..], rem[1..], limit, need - f[0]);
      SumFirst(f[0], Visit(rates[1..], rem[1..], limit, need - f[0]));
      BelowNonNegative(rates[1..], rem[1..], limit as real);
    }
  }

  /** Walking lender by lender drains the same supply in the same way. */
  lemma {:induction false} WalkDrains(rates: seq<int>, rem: seq<int>, limit: int, need: int, r: real)
    requires |rem| == |rates| && NonNegative(rem) && Ascending(rates) && need >= 0
    ensures var f := Visit(rates, rem, limit, need);
      Below(rates, Reduce(rem, f), r)
        == Below(rates, rem, r) - Least(Below(rates, rem, LowerRate(r, limit as real)), need)
  {
    var low := LowerRate(r, limit as real);
    BelowNonNegative(rates, rem, low);
    var f := Visit(rates, rem, limit, need);
    if f == [] {
      assert Reduce(rem, f) == rem;
      if rates != [] && limit < rates[0] { NothingBelow(rates, rem, low); }
    } else {
      var rest := Visit(rates[1..], rem[1..], limit, need - f[0]);
      WalkDrains(rates[1..], rem[1..], limit, need - f[0], r);
      assert Reduce(rem, f)[1..] == Reduce(rem[1..], rest);
      BelowNonNegative(rates[1..], rem[1..], low);
      if r < rates[0] as real {
        NothingBelow(rates[1..], rem[1..], r);
      }
    }
  }

  /** The buckets after some borrowers, served in turn. */
  function AfterAll(buckets: seq<Bucket>, bs: seq<Asker>, d: Division): (after: seq<Bucket>)
    ensures |after| == |buckets|
  {
    if bs == [] then buckets
    else
      var b := bs[|bs| - 1];
      Serve(AfterAll(buckets, bs[..|bs| - 1], d), b.limit, b.amount, d).buckets
  }

  /** The records of borrower b. */
  function RecordsOf(buckets: seq<Bucket>, bs: seq<Asker>, d: Division, b: nat): seq<real>
    requires b < |bs|
  {
    Serve(AfterAll(buckets, bs[..b], d), bs[b].limit, bs[b].amount, d).records
  }

  method GetMatchedOrders(buckets: seq<Bucket>, borrowOrders: seq<Asker>, d: Division)
    returns (left: seq<Bucket>, records: seq<seq<real>>)
    ensures left == AfterAll(buckets, borrowOrders, d)
    ensures |records| == |borrowOrders|
    ensures forall b :: 0 <= b < |records| ==> records[b] == RecordsOf(buckets, borrowOrders, d, b)
  {
    left, records := buckets, [];
    for i := 0 to |borrowOrders|
      invariant left == AfterAll(buckets, borrowOrders[..i], d) && |records| == i
      invariant forall b :: 0 <= b < i ==> records[b] == RecordsOf(buckets, borrowOrders, d, b)
    {
      var served := ServeBorrower(left, borrowOrders[i].limit, borrowOrders[i].amount, d);
      assert borrowOrders[..i + 1][..i] == borrowOrders[..i];
      left := served.buckets;
      records := records + [served.records];
    }
    assert borrowOrders[..|borrowOrders|] == borrowOrders;
  }

  /** Borrowers of the other engine, as this one takes them. */
  function Askers(bs: seq<Borrower>): (s: seq<Asker>)
    ensures |s| == |bs| && forall i :: 0 <= i < |s| ==> s[i] == Asker(bs[i].limit as real, bs[i].amount as real)
  {
    seq(|bs|, i requires 0 <= i < |bs| => Asker(bs[i].limit as real, bs[i].amount as real))
  }

  lemma AskersFront(bs: seq<Borrower>, n: nat)
    requires n <= |bs|
    ensures Askers(bs)[..n] == Askers(bs[..n])
  {
  }

  /** Standing the next lender in front, in its own bucket or in the first. */
  function InFront(rate: real, amount: real, rest: seq<Bucket>): seq<Bucket> {
    if rest != [] && rest[0].rate == rate then [Bucket(rate, [amount] + rest[0].remains)] + rest[1..]
    else [Bucket(rate, [amount])] + rest
  }

  /** The buckets of lenders who stand in ascending rate order. */
  function Grouped(rates: seq<int>, amounts: seq<int>): seq<Bucket>
    requires |amounts| == |rates|
  {
    if rates == [] then [] else InFront(rates[0] as real, amounts[0] as real, Grouped(rates[1..], amounts[1..]))
  }

  /** What one of these borrowers gets after those before it. */
  lemma {:induction false} RecordsInTurn(buckets: seq<Bucket>, bs: seq<Borrower>, d: Division, b: nat)
    requires b < |bs|
    ensures RecordsOf(buckets, Askers(bs), d, b)
         == Serve(AfterAll(buckets, Askers(bs[..b]), d), bs[b].limit as real, bs[b].amount as real, d).records
  {
    AskersFront(bs, b);
  }

  ghost predicate SameSupply(buckets: seq<Bucket>, rates: seq<int>, rem: seq<int>)
    requires |rem| == |rates|
  {
    forall r :: Supply(buckets, r) == Below(rates, rem, r) as real
  }

  lemma {:induction false} InFrontSupply(rate: real, amount: real, rest: seq<Bucket>, r: real)
    requires Solvent(rest) && RatesRise(rest) && amount >= 0.0 && (rest != [] ==> rate <= rest[0].rate)
    ensures var g := InFront(rate, amount, rest);
      Solvent(g) && RatesRise(g) && Supply(g, r) == (if rate <= r then amount else 0.0) + Supply(rest, r)
  {
    assert Total([amount]) == amount;
    if rest != [] && rest[0].rate == rate {
      TotalConcat([amount], rest[0].remains);
      assert InFront(rate, amount, rest)[1..] == rest[1..];
    } else {
      assert InFront(rate, amount, rest)[1..] == rest;
    }
  }

  lemma {:induction false} GroupedSupply(rates: seq<int>, amounts: seq<int>, r: real)
    requires |amounts| == |rates| && Ascending(rates) && NonNegative(amounts)
    ensures var g := Grouped(rates, amounts);
      && Supply(g, r) == Below(rates, amounts, r) as real && Solvent(g) && RatesRise(g)
      && (rates != [] ==> g != [] && g[0].rate == rates[0] as real)
  {
    if rates != [] {
      GroupedSupply(rates[1..], amounts[1..], r);
      assert |rates| > 1 ==> rates[0] <= rates[1];
      InFrontSupply(rates[0] as real, amounts[0] as real, Grouped(rates[1..], amounts[1..]), r);
    }
  }

  lemma StepAgrees(buckets: seq<Bucket>, rates: seq<int>, rem: seq<int>, b: Borrower, d: Division)
    requires Exact(d) && Solvent(buckets) && RatesRise(buckets)
    requires |rem| == |rates| && Ascending(rates) && NonNegative(rem) && b.amount >= 0
    requires SameSupply(buckets, rates, rem)
    ensures var s, f := Serve(buckets, b.limit as real, b.amount as real, d), Visit(rates, rem, b.limit, b.amount);
      && Total(s.records) == Sum(f) as real
      && Solvent(s.buckets) && RatesRise(s.buckets) && SameSupply(s.buckets, rates, Reduce(rem, f))
  {
    var s, f := Serve(buckets, b.limit as real, b.amount as real, d), Visit(rates, rem, b.limit, b.amount);
    ServeFills(buckets, b.limit as real, b.amount as real, d);
    WalkTakes(rates, rem, b.limit, b.amount);
    forall r
      ensures Supply(s.buckets, r) == Below(rates, Reduce(rem, f), r) as real
    {
      ServeDrains(buckets, b.limit as real, b.amount as real, d, r);
      WalkDrains(rates, rem, b.limit, b.amount, r);
    }
  }

  /** With exact division the two engines have, after every borrower, the same supply left at
      every rate; and here no lender has less than nothing left. */
  lemma {:induction false} EnginesAgree(bs: seq<Borrower>, rates: seq<int>, amounts: seq<int>, d: Division)
    requires Market(bs, rates, amounts) && Exact(d)
    ensures var left := AfterAll(Grouped(rates, amounts), Askers(bs), d);
      && Solvent(left) && RatesRise(left)
      && SameSupply(left, rates, Remaining(amounts, Match(bs, rates, amounts)))
    decreases |bs|
  {
    if bs == [] {
      forall r ensures Supply(Grouped(rates, amounts), r) == Below(rates, amounts, r) as real {
        GroupedSupply(rates, amounts, r);
      }
      GroupedSupply(rates, amounts, 0.0);
    } else {
      var front := bs[..|bs| - 1];
      EnginesAgree(front, rates, amounts, d);
      RestsStayNonNegative(front, rates, amounts);
      AskersFront(bs, |bs| - 1);
      var before := Match(front, rates, amounts);
      StepAgrees(AfterAll(Grouped(rates, amounts), Askers(front), d), rates, Remaining(amounts, before),
                 bs[|bs| - 1], d);
      assert Match(bs, rates, amounts)[..|bs| - 1] == before;
    }
  }

  /** And they fill every borrower alike. */
  lemma {:induction false} EnginesFillAlike(bs: seq<Borrower>, rates: seq<int>, amounts: seq<int>, d: Division, b: nat)
    requires Market(bs, rates, amounts) && Exact(d) && b < |bs|
    ensures Total(RecordsOf(Grouped(rates, amounts), Askers(bs), d, b))
         == BorrowerTotal(Match(bs, rates, amounts), b) as real
  {
    EnginesAgree(bs[..b], rates, amounts, d);
    AskersFront(bs, b);
    ServesPrefix(bs, rates, amounts, b);
    ServedInTurn(bs, rates, amounts, b);
    StepAgrees(AfterAll(Grouped(rates, amounts), Askers(bs[..b]), d), rates,
               Remaining(amounts, Match(bs, rates, amounts)[..b]), bs[b], d);
  }

  // ---------- Rounded division over a whole run ----------

  /** No lender's rest is further than x below nothing. */
  ghost predicate ShortAtMost(buckets: seq<Bucket>, x: real) {
    forall i, k :: 0 <= i < |buckets| && 0 <= k < |buckets[i].remains| ==> buckets[i].remains[k] >= -x
  }

  lemma RestKept(r: real, sum: real, reduce: real)
    requires sum > 0.0 && 0.0 <= reduce <= sum
    ensures r - Portion(r, reduce / sum) >= Lesser(r, 0.0)
  {
    if r >= 0.0 {
      PortionBetween(r, sum, reduce);
    } else {
      PortionBetween(-r, sum, reduce);
      PortionOfSum(r, -r, reduce / sum);
    }
  }

  lemma RoundingSplits(a: real, b: real, c: real, e: real)
    requires a >= 0.0 && b >= 0.0 && e >= 0.0 && c == a + b
    ensures Rounding(a, e) >= 0.0 && Rounding(b, e) >= 0.0 && Rounding(a, e) + Rounding(b, e) == Rounding(c, e)
  {
    ProductGrows(0.0, a, e);
    ProductGrows(0.0, b, e);
  }

  lemma RoundingOfSum(a: real, b: real, c: real, e: real)
    requires a >= 0.0 && b >= 0.0 && a + b <= c && e >= 0.0
    ensures 0.0 <= Rounding(a, e) + Rounding(b, e) <= Rounding(c, e) && Rounding(c, e) >= 0.0
  {
    RoundingSplits(a, b, a + b, e);
    ProductGrows(a + b, c, e);
  }

  lemma BucketShort(b: Bucket, limit: real, need: real, d: Division, e: real, x: real)
    requires Close(d, e) && e >= 0.0 && x >= 0.0 && ShortAtMost([b], x)
    ensures var p := ServeBucket(b, limit, need, d);
      p.need <= need && ShortAtMost([p.bucket], x + Rounding(need - p.need, e))
  {
    assert forall k :: 0 <= k < |b.remains| ==> [b][0].remains[k] >= -x;
    var p := ServeBucket(b, limit, need, d);
    if TakesPart(b, limit, need) {
      var sum := Total(b.remains);
      var reduce := Lesser(sum, need);
      forall k | 0 <= k < |b.remains|
        ensures p.bucket.remains[k] >= -(x + Rounding(reduce, e))
      {
        ShareClose(b.remains[k], sum, reduce, d, e);
        RestKept(b.remains[k], sum, reduce);
      }
    } else {
      RoundingSplits(0.0, 0.0, 0.0, e);
    }
  }

  /** A borrower overfills no lender by more than one rounding of what it takes in all. */
  lemma {:induction false} ServeShort(buckets: seq<Bucket>, limit: real, need: real, d: Division, e: real, x: real)
    requires Close(d, e) && e >= 0.0 && x >= 0.0 && ShortAtMost(buckets, x)
    ensures var s := Serve(buckets, limit, need, d);
      s.need <= need && ShortAtMost(s.buckets, x + Rounding(need - s.need, e))
    decreases |buckets|
  {
    if buckets != [] {
      var p := ServeBucket(buckets[0], limit, need, d);
      var rest := Serve(buckets[1..], limit, p.need, d);
      ShortParts(buckets, x);
      BucketShort(buckets[0], limit, need, d, e, x);
      ServeShort(buckets[1..], limit, p.need, d, e, x);
      RoundingSplits(need - p.need, p.need - rest.need, need - rest.need, e);
      ShortJoin(p.bucket, rest.buckets, x + Rounding(need - p.need, e), x + Rounding(p.need - rest.need, e),
                x + Rounding(need - rest.need, e));
    }
  }

  lemma ShortParts(buckets: seq<Bucket>, x: real)
    requires buckets != [] && ShortAtMost(buckets, x)
    ensures ShortAtMost([buckets[0]], x) && ShortAtMost(buckets[1..], x)
  {
  }

  lemma ShortJoin(b: Bucket, rest: seq<Bucket>, x: real, y: real, z: real)
    requires ShortAtMost([b], x) && ShortAtMost(rest, y) && x <= z && y <= z
    ensures ShortAtMost([b] + rest, z)
  {
    forall i, k | 0 <= i < |[b] + rest| && 0 <= k < |([b] + rest)[i].remains|
      ensures ([b] + rest)[i].remains[k] >= -z
    {
      if i == 0 { assert [b][0].remains[k] >= -x; } else { assert rest[i - 1].remains[k] >= -y; }
    }
  }

  ghost function ExactDivision(): (c: Division)
    ensures Exact(c)
  {
    (a, b) => if b > 0.0 then a / b else 0.0
  }

  /** What the borrowers ask for in all. */
  function Wanted(bs: seq<Asker>): real {
    if bs == [] then 0.0 else Wanted(bs[..|bs| - 1]) + bs[|bs| - 1].amount
  }

  predicate AsksNothingNegative(bs: seq<Asker>) {
    forall i :: 0 <= i < |bs| ==> bs[i].amount >= 0.0
  }

  lemma {:induction false} WantedNonNegative(bs: seq<Asker>)
    requires AsksNothingNegative(bs)
    ensures Wanted(bs) >= 0.0
    decreases |bs|
  {
    if bs != [] { WantedNonNegative(bs[..|bs| - 1]); }
  }

  /** However the shares are rounded, after all borrowers no lender is overfilled by more than
      the error times what the borrowers asked for in all. */
  lemma {:induction false} OverfillStaysSmall(buckets: seq<Bucket>, bs: seq<Asker>, d: Division, e: real)
    requires Close(d, e) && e >= 0.0 && Solvent(buckets) && AsksNothingNegative(bs)
    ensures ShortAtMost(AfterAll(buckets, bs, d), Rounding(Wanted(bs), e))
    decreases |bs|
  {
    if bs == [] {
      RoundingSplits(0.0, 0.0, 0.0, e);
    } else {
      var front, b := bs[..|bs| - 1], bs[|bs| - 1];
      OverfillStaysSmall(buckets, front, d, e);
      WantedNonNegative(front);
      RoundingOfSum(0.0, Wanted(front), Wanted(front), e);
      var before, need := AfterAll(buckets, front, d), b.amount;
      ServeShort(before, b.limit, need, d, e, Rounding(Wanted(front), e));
      NeedStaysNonNegative(before, b.limit, need, d);
      RoundingOfSum(Wanted(front), need - Serve(before, b.limit, need, d).need, Wanted(bs), e);
    }
  }

  lemma {:induction false} NeedStaysNonNegative(buckets: seq<Bucket>, limit: real, need: real, d: Division)
    requires need >= 0.0
    ensures Serve(buckets, limit, need, d).need >= 0.0
    decreases |buckets|
  {
    if buckets != [] { NeedStaysNonNegative(buckets[1..], limit, ServeBucket(buckets[0], limit, need, d).need, d); }
  }

  /** What leaves a bucket for a borrower who agrees to its rate. */
  function Taken(total: real, need: real): real {
    if need > 0.0 && total > 0.0 then Lesser(total, need) else 0.0
  }

  /** Taking, up to a miss, brings two buckets with their borrowers no further apart. */
  lemma TakingDrawsNear(t: real, need: real, t': real, need': real, left: real, left': real)
    requires need >= 0.0 && need' >= 0.0 && left' == t' - Taken(t', need')
    ensures Gap(left, left') + Gap(need - Taken(t, need), need' - Taken(t', need'))
         <= Gap(t, t') + Gap(need, need') + Gap(left, t - Taken(t, need))
  {
  }

  lemma DrawsNearUntaken(t: real, t': real, left: real)
    ensures Gap(left, t') <= Gap(t, t') + Gap(left, t)
  {
  }

  lemma BucketTakes(b: Bucket, limit: real, need: real, d: Division)
    requires need >= 0.0
    ensures var p := ServeBucket(b, limit, need, d);
      && p.need == need - (if b.rate <= limit then Taken(Total(b.remains), need) else 0.0)
      && Gap(Total(p.bucket.remains), Total(b.remains) - (need - p.need)) == Miss(b, limit, need, d)
  {
    if TakesPart(b, limit, need) {
      var sum := Total(b.remains);
      GivenTotal(b.remains, Shares(b.remains, sum, Lesser(sum, need), d));
    }
  }

  lemma ExactMiss(b: Bucket, limit: real, need: real, c: Division)
    requires Exact(c)
    ensures Miss(b, limit, need, c) == 0.0
  {
    var p := ServeBucket(b, limit, need, c);
    BucketMiss(b, limit, need, c, 0.0, |b.remains|);
    NoRounding(|b.remains|, need - p.need);
  }

  predicate SameRates(p: seq<Bucket>, q: seq<Bucket>) {
    |p| == |q| && forall i :: 0 <= i < |p| ==> p[i].rate == q[i].rate
  }

  /** How far two states of the same buckets are apart, bucket by bucket. */
  function Apart(p: seq<Bucket>, q: seq<Bucket>): (x: real)
    requires |p| == |q|
    ensures x >= 0.0
  {
    if p == [] then 0.0 else Gap(Total(p[0].remains), Total(q[0].remains)) + Apart(p[1..], q[1..])
  }

  lemma {:induction false} ApartFrom(a: Bucket, p: seq<Bucket>, b: Bucket, q: seq<Bucket>)
    requires |p| == |q|
    ensures Apart([a] + p, [b] + q) == Gap(Total(a.remains), Total(b.remains)) + Apart(p, q)
  {
    assert ([a] + p)[1..] == p && ([b] + q)[1..] == q;
  }

  lemma BucketDrift(b: Bucket, b': Bucket, limit: real, need: real, need': real, d: Division, c: Division)
    requires Exact(c) && need >= 0.0 && need' >= 0.0 && b.rate == b'.rate
    ensures var p, q := ServeBucket(b, limit, need, d), ServeBucket(b', limit, need', c);
      && p.need >= 0.0 && q.need >= 0.0
      && Gap(Total(p.bucket.remains), Total(q.bucket.remains)) + Gap(p.need, q.need)
           <= Gap(Total(b.remains), Total(b'.remains)) + Gap(need, need') + Miss(b, limit, need, d)
  {
    BucketTakes(b, limit, need, d);
    BucketTakes(b', limit, need', c);
    ExactMiss(b', limit, need', c);
    var p, q := ServeBucket(b, limit, need, d).bucket, ServeBucket(b', limit, need', c).bucket;
    if b.rate <= limit {
      TakingDrawsNear(Total(b.remains), need, Total(b'.remains), need', Total(p.remains), Total(q.remains));
    } else {
      DrawsNearUntaken(Total(b.remains), Total(b'.remains), Total(p.remains));
    }
  }

  /** Serving keeps every bucket's rate and size, and the need between zero and what it was. */
  lemma {:induction false} ServeShape(p: seq<Bucket>, limit: real, need: real, d: Division)
    requires need >= 0.0
    ensures var s := Serve(p, limit, need, d);
      && 0.0 <= s.need <= need && SameRates(s.buckets, p)
      && forall i :: 0 <= i < |p| ==> |s.buckets[i].remains| == |p[i].remains|
    decreases |p|
  {
    if p != [] { ServeShape(p[1..], limit, ServeBucket(p[0], limit, need, d).need, d); }
  }

  /** One borrower drives the rounding engine and the exact one apart by no more than its
      records miss. */
  lemma {:induction false} ServeDrift(p: seq<Bucket>, q: seq<Bucket>, limit: real, need: real, need': real,
                                      d: Division, c: Division)
    requires Exact(c) && need >= 0.0 && need' >= 0.0 && SameRates(p, q)
    ensures var s, t := Serve(p, limit, need, d), Serve(q, limit, need', c);
      Apart(s.buckets, t.buckets) + Gap(s.need, t.need)
        <= Apart(p, q) + Gap(need, need') + Misses(p, limit, need, d)
    decreases |p|
  {
    if p != [] {
      var a, b := ServeBucket(p[0], limit, need, d), ServeBucket(q[0], limit, need', c);
      BucketDrift(p[0], q[0], limit, need, need', d, c);
      ServeDrift(p[1..], q[1..], limit, a.need, b.need, d, c);
      ApartFrom(a.bucket, Serve(p[1..], limit, a.need, d).buckets, b.bucket, Serve(q[1..], limit, b.need, c).buckets);
    }
  }

  /** What the records of all borrowers miss. */
  function AllMisses(buckets: seq<Bucket>, bs: seq<Asker>, d: Division): real {
    if bs == [] then 0.0
    else
      var front, b := bs[..|bs| - 1], bs[|bs| - 1];
      AllMisses(buckets, front, d) + Misses(AfterAll(buckets, front, d), b.limit, b.amount, d)
  }

  lemma {:induction false} AllDrift(buckets: seq<Bucket>, bs: seq<Asker>, d: Division, c: Division)
    requires Exact(c) && AsksNothingNegative(bs)
    ensures var p, q := AfterAll(buckets, bs, d), AfterAll(buckets, bs, c);
      SameRates(p, q) && Apart(p, q) <= AllMisses(buckets, bs, d)
    decreases |bs|
  {
    if bs == [] {
      NoneApart(buckets);
    } else {
      var front, limit, need := bs[..|bs| - 1], bs[|bs| - 1].limit, bs[|bs| - 1].amount;
      var p, q := AfterAll(buckets, front, d), AfterAll(buckets, front, c);
      AllDrift(buckets, front, d, c);
      ServeShape(p, limit, need, d);
      ServeShape(q, limit, need, c);
      ServeDrift(p, q, limit, need, need, d, c);
    }
  }

  lemma {:induction false} NoneApart(buckets: seq<Bucket>)
    ensures Apart(buckets, buckets) == 0.0
  {
    if buckets != [] { NoneApart(buckets[1..]); }
  }

  lemma {:induction false} SuppliesApart(p: seq<Bucket>, q: seq<Bucket>, r: real)
    requires SameRates(p, q)
    ensures Gap(Supply(p, r), Supply(q, r)) <= Apart(p, q)
    decreases |p|
  {
    if p != [] { SuppliesApart(p[1..], q[1..], r); }
  }

  /** One borrower's records miss no more than the rounding of what it asks for. */
  lemma {:induction false} BorrowerMisses(buckets: seq<Bucket>, b: Asker, d: Division, e: real, n: nat)
    requires Close(d, e) && e >= 0.0 && SizesUpTo(buckets, n) && b.amount >= 0.0
    ensures Misses(buckets, b.limit, b.amount, d) <= Slack(n, Rounding(b.amount, e))
    ensures SizesUpTo(Serve(buckets, b.limit, b.amount, d).buckets, n)
  {
    var need := b.amount;
    MissesSmall(buckets, b.limit, need, d, e, n);
    ServeShape(buckets, b.limit, need, d);
    SlackOfLess(n, need - Serve(buckets, b.limit, need, d).need, need, e);
  }

  lemma {:induction false} SlackOfLess(n: nat, a: real, b: real, e: real)
    requires a <= b && e >= 0.0
    ensures Slack(n, Rounding(a, e)) <= Slack(n, Rounding(b, e))
  {
    ProductGrows(a, b, e);
    assert Rounding(a, e) == e * a && Rounding(b, e) == e * b;
    if n > 0 { SlackOfLess(n - 1, a, b, e); }
  }

  lemma {:induction false} SlackOfSum(n: nat, a: real, b: real, c: real, e: real, x: real, y: real)
    requires c == a + b && x <= Slack(n, Rounding(a, e)) && y <= Slack(n, Rounding(b, e))
    ensures x + y <= Slack(n, Rounding(c, e))
  {
    SlackAdds(n, a, b, e);
  }

  lemma {:induction false} AllMissesSmall(buckets: seq<Bucket>, bs: seq<Asker>, d: Division, e: real, n: nat)
    requires Close(d, e) && e >= 0.0 && SizesUpTo(buckets, n) && AsksNothingNegative(bs)
    ensures SizesUpTo(AfterAll(buckets, bs, d), n)
    ensures AllMisses(buckets, bs, d) <= Slack(n, Rounding(Wanted(bs), e))
    decreases |bs|
  {
    if bs == [] {
      SlackAdds(n, 0.0, 0.0, e);
    } else {
      var front, b := bs[..|bs| - 1], bs[|bs| - 1];
      AllMissesSmall(buckets, front, d, e, n);
      BorrowerMisses(AfterAll(buckets, front, d), b, d, e, n);
      SlackOfSum(n, Wanted(front), b.amount, Wanted(bs), e, AllMisses(buckets, front, d),
                 Misses(AfterAll(buckets, front, d), b.limit, b.amount, d));
    }
  }

  /** With rounded division the supply at every rate stays, after every borrower, within the
      rounding of all that was asked for of the lender-by-lender engine's. */
  lemma {:induction false} SuppliesStayClose(bs: seq<Borrower>, rates: seq<int>, amounts: seq<int>, d: Division,
                                             e: real, n: nat, r: real)
    requires Market(bs, rates, amounts) && Close(d, e) && e >= 0.0 && SizesUpTo(Grouped(rates, amounts), n)
    ensures Gap(Supply(AfterAll(Grouped(rates, amounts), Askers(bs), d), r),
                Below(rates, Remaining(amounts, Match(bs, rates, amounts)), r) as real)
         <= Slack(n, Rounding(Wanted(Askers(bs)), e))
  {
    var c := ExactDivision();
    var buckets := Grouped(rates, amounts);
    AllDrift(buckets, Askers(bs), d, c);
    AllMissesSmall(buckets, Askers(bs), d, e, n);
    SuppliesApart(AfterAll(buckets, Askers(bs), d), AfterAll(buckets, Askers(bs), c), r);
    EnginesAgree(bs, rates, amounts, c);
  }

  /** The drift with the records in place of the need. */
  lemma {:induction false} FillApart(p: seq<Bucket>, q: seq<Bucket>, limit: real, need: real, d: Division, c: Division,
                                     s: Served, t: Served)
    requires Exact(c) && need >= 0.0 && SameRates(p, q)
    requires s == Serve(p, limit, need, d) && t == Serve(q, limit, need, c)
    ensures Gap(Total(s.records), need - t.need) <= Apart(p, q) + 2.0 * Misses(p, limit, need, d)
  {
    var x, m := Apart(p, q), Misses(p, limit, need, d);
    assert Gap(Total(s.records), need - s.need) <= m by { RecordsMiss(p, limit, need, d); }
    assert Gap(need - s.need, need - t.need) <= x + m by { NeedsApart(p, q, limit, need, d, c); }
    FillsAddUp(Total(s.records), need - s.need, need - t.need, x, m);
  }

  lemma {:induction false} NeedsApart(p: seq<Bucket>, q: seq<Bucket>, limit: real, need: real, d: Division, c: Division)
    requires Exact(c) && need >= 0.0 && SameRates(p, q)
    ensures Gap(need - Serve(p, limit, need, d).need, need - Serve(q, limit, need, c).need)
         <= Apart(p, q) + Misses(p, limit, need, d)
  {
    ServeDrift(p, q, limit, need, need, d, c);
  }

  lemma FillsAddUp(total: real, taken: real, taken': real, x: real, m: real)
    requires Gap(taken, taken') <= x + m && Gap(total, taken) <= m
    ensures Gap(total, taken') <= x + 2.0 * m
  {
  }

  lemma {:induction false} ExactFill(bs: seq<Borrower>, rates: seq<int>, amounts: seq<int>, c: Division, b: nat)
    requires Market(bs, rates, amounts) && Exact(c) && b < |bs|
    ensures var q := AfterAll(Grouped(rates, amounts), Askers(bs[..b]), c);
      bs[b].amount as real - Serve(q, bs[b].limit as real, bs[b].amount as real, c).need
        == BorrowerTotal(Match(bs, rates, amounts), b) as real
  {
    EnginesAgree(bs[..b], rates, amounts, c);
    ServeFills(AfterAll(Grouped(rates, amounts), Askers(bs[..b]), c), bs[b].limit as real, bs[b].amount as real, c);
    EnginesFillAlike(bs, rates, amounts, c, b);
    RecordsInTurn(Grouped(rates, amounts), bs, c, b);
  }

  /** By how much the two engines differ in what borrower b receives. */
  function FillGap(bs: seq<Borrower>, rates: seq<int>, amounts: seq<int>, d: Division, b: nat): real
    requires |amounts| == |rates| && b < |bs|
  {
    Gap(Total(RecordsOf(Grouped(rates, amounts), Askers(bs), d, b)),
        BorrowerTotal(Match(bs, rates, amounts), b) as real)
  }

  /** It is no more than the records before b missed, and twice what its own miss. */
  lemma {:induction false} FillsMiss(bs: seq<Borrower>, rates: seq<int>, amounts: seq<int>, d: Division, b: nat)
    requires Market(bs, rates, amounts) && b < |bs|
    ensures var buckets, front, asker := Grouped(rates, amounts), Askers(bs[..b]), Askers(bs)[b];
      FillGap(bs, rates, amounts, d, b)
        <= AllMisses(buckets, front, d) + 2.0 * Misses(AfterAll(buckets, front, d), asker.limit, asker.amount, d)
  {
    var c := ExactDivision();
    var buckets := Grouped(rates, amounts);
    AllDrift(buckets, Askers(bs[..b]), d, c);
    ExactFill(bs, rates, amounts, c, b);
    var p, q := AfterAll(buckets, Askers(bs[..b]), d), AfterAll(buckets, Askers(bs[..b]), c);
    var limit, need := bs[b].limit as real, bs[b].amount as real;
    RecordsInTurn(buckets, bs, d, b);
    FillApart(p, q, limit, need, d, c, Serve(p, limit, need, d), Serve(q, limit, need, c));
  }

  /** With rounded division it is no more than the rounding of all that was asked for before b,
      and twice the rounding of what b asks for. */
  lemma {:induction false} FillsStayClose(bs: seq<Borrower>, rates: seq<int>, amounts: seq<int>, d: Division, e: real,
                                          n: nat, b: nat)
    requires Market(bs, rates, amounts) && Close(d, e) && e >= 0.0 && SizesUpTo(Grouped(rates, amounts), n) && b < |bs|
    ensures FillGap(bs, rates, amounts, d, b)
         <= Slack(n, Rounding(Wanted(Askers(bs[..b])), e)) + 2.0 * Slack(n, Rounding(Askers(bs)[b].amount, e))
  {
    FillsMiss(bs, rates, amounts, d, b);
    MissesWithin(Grouped(rates, amounts), Askers(bs[..b]), Askers(bs)[b], d, e, n);
  }

  lemma {:induction false} MissesWithin(buckets: seq<Bucket>, front: seq<Asker>, b: Asker, d: Division, e: real, n: nat)
    requires Close(d, e) && e >= 0.0 && SizesUpTo(buckets, n) && AsksNothingNegative(front) && b.amount >= 0.0
    ensures AllMisses(buckets, front, d) + 2.0 * Misses(AfterAll(buckets, front, d), b.limit, b.amount, d)
         <= Slack(n, Rounding(Wanted(front), e)) + 2.0 * Slack(n, Rounding(b.amount, e))
  {
    AllMissesSmall(buckets, front, d, e, n);
    BorrowerMisses(AfterAll(buckets, front, d), b, d, e, n);
  }
}
