/** The lend/borrow matching engine on mutable orders. A record of a match is one object,
    listed by its borrower and by its lender alike, so that the rate assigned to it after
    the borrower has been served is seen from both sides. */
module AuctionEngine {
  import opened Wrappers
  import opened Sums
  import opened StableSort
  import opened AuctionMatching
  import opened BigintHelper
  import opened JsBigInt

  /** The record of one visit. `turn` and `seat` say which borrower, in service order, made
      it at which lender, in rate order. */
  class Detail {
    const id: int
    const matchedAmount: int
    var matchedInterestRate: int
    ghost const turn: nat
    ghost const seat: nat

    constructor (id: int, matchedAmount: int, matchedInterestRate: int, ghost turn: nat, ghost seat: nat)
      ensures this.id == id && this.matchedAmount == matchedAmount
      ensures this.matchedInterestRate == matchedInterestRate
      ensures this.turn == turn && this.seat == seat
    {
      this.id, this.matchedAmount, this.matchedInterestRate := id, matchedAmount, matchedInterestRate;
      this.turn, this.seat := turn, seat;
    }
  }

  function TotalOf(details: seq<Detail>): int {
    if details == [] then 0
    else TotalOf(details[..|details| - 1]) + details[|details| - 1].matchedAmount
  }

  function WeightedTotal(details: seq<Detail>): int
    reads details
  {
    if details == [] then 0
    else
      var last := details[|details| - 1];
      WeightedTotal(details[..|details| - 1]) + last.matchedInterestRate * last.matchedAmount
  }

  class AuctionOrder {
    const id: int
    const interestRate: int
    const amount: int
    const createdTime: int
    var matchedDetails: Option<seq<Detail>>

    constructor (id: int, interestRate: int, amount: int, createdTime: int)
      ensures this.id == id && this.interestRate == interestRate
      ensures this.amount == amount && this.createdTime == createdTime
      ensures matchedDetails == None
    {
      this.id, this.interestRate := id, interestRate;
      this.amount, this.createdTime := amount, createdTime;
      matchedDetails := None;
    }

    function MatchedAmount(): int
      reads this
    {
      TotalOf(Listed(matchedDetails))
    }

    function RemainAmount(): int
      reads this
    {
      amount - MatchedAmount()
    }

    /** The average rate weighted by amount; none when a started list has total 0 and the
        division throws. */
    function MatchedInterestRate(): Option<int>
      reads this, Listed(matchedDetails)
      requires MatchedAmount() >= 0
    {
      match matchedDetails
      case None => Some(0)
      case Some(details) =>
        if MatchedAmount() == 0 then None
        else Some(TruncDiv(WeightedTotal(details), MatchedAmount()))
    }

    method AddMatchedDetail(detail: Detail)
      modifies this
      ensures matchedDetails == Some(Listed(old(matchedDetails)) + [detail])
    {
      if matchedDetails.None? {
        matchedDetails := Some([]);
      }
      matchedDetails := Some(matchedDetails.value + [detail]);
    }

    method AddMatchedDetails(details: seq<Detail>)
      modifies this
      ensures matchedDetails == Some(Listed(old(matchedDetails)) + details)
    {
      if matchedDetails.None? {
        matchedDetails := Some([]);
      }
      matchedDetails := Some(matchedDetails.value + details);
    }
  }

  /** The records on a list that may not have been started. */
  function Listed(details: Option<seq<Detail>>): seq<Detail> {
    if details.None? then [] else details.value
  }

  function RateOf(order: AuctionOrder): int { order.interestRate }

  function TimeOf(order: AuctionOrder): int { order.createdTime }

  function Rates(orders: seq<AuctionOrder>): (r: seq<int>) {
    seq(|orders|, i requires 0 <= i < |orders| => orders[i].interestRate)
  }

  function Amounts(orders: seq<AuctionOrder>): (r: seq<int>) {
    seq(|orders|, i requires 0 <= i < |orders| => orders[i].amount)
  }

  // ---------- Rate buckets ----------

  type Buckets = map<int, seq<AuctionOrder>>

  /** The buckets one after the other, in the order of the rate list. */
  function Flatten(rates: seq<int>, buckets: Buckets): seq<AuctionOrder>
    requires forall i :: 0 <= i < |rates| ==> rates[i] in buckets
  {
    if rates == [] then []
    else Flatten(rates[..|rates| - 1], buckets) + buckets[rates[|rates| - 1]]
  }

  /** One bucket per rate seen, holding the lenders of that rate in list order. */
  ghost predicate Grouped(lenders: seq<AuctionOrder>, buckets: Buckets) {
    && (forall r {:trigger BucketFor(buckets, r)} :: BucketFor(buckets, r) == Pick(lenders, RateOf, r))
    && (forall r :: r in buckets ==> buckets[r] != [])
  }

  function BucketFor(buckets: Buckets, r: int): seq<AuctionOrder> {
    if r in buckets then buckets[r] else []
  }

  /** Every lender is in the bucket of its rate, in list order; the rates ascend. */
  ghost predicate Bucketed(lenders: seq<AuctionOrder>, rates: seq<int>, buckets: Buckets) {
    && (forall i, j :: 0 <= i < j < |rates| ==> rates[i] < rates[j])
    && (forall i :: 0 <= i < |rates| ==> rates[i] in buckets)
    && (forall r :: r in buckets ==> r in rates)
    && Grouped(lenders, buckets)
  }

  lemma GroupedGrows(lenders: seq<AuctionOrder>, order: AuctionOrder, buckets: Buckets)
    requires Grouped(lenders, buckets)
    ensures Grouped(lenders + [order], buckets[order.interestRate := BucketFor(buckets, order.interestRate) + [order]])
  {
    var more := buckets[order.interestRate := BucketFor(buckets, order.interestRate) + [order]];
    forall r
      ensures BucketFor(more, r) == Pick(lenders + [order], RateOf, r)
    {
      PickConcat(lenders, [order], RateOf, r);
      assert BucketFor(buckets, r) == Pick(lenders, RateOf, r);
    }
  }

  method GetLendOrderInterestMap(lendOrders: seq<AuctionOrder>) returns (buckets: Buckets, rates: seq<int>)
    ensures Bucketed(lendOrders, rates, buckets)
  {
    buckets := BucketByRate(lendOrders);
    rates := SortedKeys(buckets.Keys);
  }

  method AddToBucket(buckets: Buckets, order: AuctionOrder) returns (more: Buckets)
    ensures more == buckets[order.interestRate := BucketFor(buckets, order.interestRate) + [order]]
  {
    more := buckets;
    if order.interestRate !in more {
      more := more[order.interestRate := []];
    }
    more := more[order.interestRate := more[order.interestRate] + [order]];
  }

  method BucketByRate(lendOrders: seq<AuctionOrder>) returns (buckets: Buckets)
    ensures Grouped(lendOrders, buckets)
  {
    buckets := map[];
    ghost var seen := [];
    for i := 0 to |lendOrders|
      invariant seen == lendOrders[..i] && Grouped(seen, buckets)
    {
      var order := lendOrders[i];
      GroupedGrows(seen, order, buckets);
      buckets := AddToBucket(buckets, order);
      seen := seen + [order];
      assert seen == lendOrders[..i + 1];
    }
    assert lendOrders[..|lendOrders|] == lendOrders;
  }

  /** The keys of the map as a list, sorted by their numeric value. */
  method SortedKeys(keys: set<int>) returns (list: seq<int>)
    ensures forall i, j :: 0 <= i < j < |list| ==> list[i] < list[j]
    ensures forall i :: 0 <= i < |list| ==> list[i] in keys
    ensures forall r :: r in keys ==> r in list
  {
    list := [];
    var rest := keys;
    while rest != {}
      invariant rest <= keys
      invariant forall i, j :: 0 <= i < j < |list| ==> list[i] < list[j]
      invariant forall i :: 0 <= i < |list| ==> list[i] in keys
      invariant forall i, r :: 0 <= i < |list| && r in rest ==> list[i] < r
      invariant forall r :: r in keys ==> r in list || r in rest
      decreases rest
    {
      ghost var m := HasLeast(rest);
      var least :| least in rest && forall r :: r in rest ==> least <= r;
      list := list + [least];
      rest := rest - {least};
    }
  }

  ghost function Member<T>(s: set<T>): (x: T)
    requires s != {}
    ensures x in s
  {
    var x :| x in s;
    x
  }

  lemma {:induction false} HasLeast(s: set<int>) returns (m: int)
    requires s != {}
    ensures m in s && forall y :: y in s ==> m <= y
    decreases s
  {
    var x := Member(s);
    m := x;
    var others := s - {x};
    if others != {} {
      var n := HasLeast(others);
      if n < x { m := n; }
    }
    forall y | y in s ensures m <= y {
      assert y == x || y in others;
    }
  }

  lemma {:induction false} FlattenPick(rates: seq<int>, buckets: Buckets, r: int)
    requires forall i, j :: 0 <= i < j < |rates| ==> rates[i] < rates[j]
    requires forall i :: 0 <= i < |rates| ==> rates[i] in buckets
    requires forall k, o :: k in buckets && o in buckets[k] ==> RateOf(o) == k
    ensures Pick(Flatten(rates, buckets), RateOf, r) == if r in rates then buckets[r] else []
  {
    if rates != [] {
      var front, last := rates[..|rates| - 1], rates[|rates| - 1];
      FlattenPick(front, buckets, r);
      PickConcat(Flatten(front, buckets), buckets[last], RateOf, r);
      PickUniform(buckets[last], last, r);
      assert Pick(Flatten(rates, buckets), RateOf, r)
          == Pick(Flatten(front, buckets), RateOf, r) + Pick(buckets[last], RateOf, r);
      assert r in rates <==> r in front || r == last;
      if r == last {
        assert r !in front && [] + buckets[last] == buckets[last];
      } else if r in front {
        assert buckets[r] + [] == buckets[r];
      }
    }
  }

  lemma {:induction false} PickUniform(s: seq<AuctionOrder>, rate: int, r: int)
    requires forall o :: o in s ==> RateOf(o) == rate
    ensures Pick(s, RateOf, r) == if r == rate then s else []
  {
    if s != [] {
      PickUniform(s[1..], rate, r);
      assert RateOf(s[0]) == rate;
    }
  }

  lemma {:induction false} FlattenSorted(rates: seq<int>, buckets: Buckets)
    requires forall i, j :: 0 <= i < j < |rates| ==> rates[i] < rates[j]
    requires forall i :: 0 <= i < |rates| ==> rates[i] in buckets
    requires forall k, o :: k in buckets && o in buckets[k] ==> RateOf(o) == k
    ensures Sorted(Flatten(rates, buckets), RateOf)
    ensures forall o :: o in Flatten(rates, buckets) ==> rates != [] && RateOf(o) <= rates[|rates| - 1]
  {
    if rates != [] {
      FlattenSorted(rates[..|rates| - 1], buckets);
    }
  }

  /** The buckets in rate order are the lenders stably sorted by rate. */
  lemma {:induction false} BucketsAreStableSort(lenders: seq<AuctionOrder>, rates: seq<int>, buckets: Buckets)
    requires Bucketed(lenders, rates, buckets)
    ensures Flatten(rates, buckets) == Sort(lenders, RateOf)
  {
    forall k, o | k in buckets && o in buckets[k] ensures RateOf(o) == k {
      PickSound(lenders, RateOf, k);
      assert BucketFor(buckets, k) == Pick(lenders, RateOf, k);
    }
    FlattenSorted(rates, buckets);
    SortIsStable(lenders, RateOf);
    forall r
      ensures Pick(Flatten(rates, buckets), RateOf, r) == Pick(Sort(lenders, RateOf), RateOf, r)
    {
      FlattenPick(rates, buckets, r);
      assert BucketFor(buckets, r) == Pick(lenders, RateOf, r);
    }
    StableSortUnique(Flatten(rates, buckets), Sort(lenders, RateOf), RateOf);
  }

  ghost predicate BucketAt(start: nat, end: nat, lenders: seq<AuctionOrder>, bucket: seq<AuctionOrder>) {
    && start + |bucket| == end <= |lenders|
    && forall i :: 0 <= i < |bucket| ==> bucket[i] == lenders[start + i]
  }

  predicate AllAtRate(bucket: seq<AuctionOrder>, rate: int) {
    forall i :: 0 <= i < |bucket| ==> bucket[i].interestRate == rate
  }

  /** The first k buckets are laid out in the list of all lenders, at these offsets, by
      ascending rate. */
  ghost predicate LaidOut(k: nat, rates: seq<int>, buckets: Buckets, lenders: seq<AuctionOrder>, offsets: seq<nat>)
    requires k <= |rates| && |offsets| == |rates| + 1
  {
    if k == 0 then offsets[0] == 0
    else
      var r := rates[k - 1];
      && LaidOut(k - 1, rates, buckets, lenders, offsets)
      && r in buckets && buckets[r] != [] && AllAtRate(buckets[r], r)
      && BucketAt(offsets[k - 1], offsets[k], lenders, buckets[r])
      && (k > 1 ==> rates[k - 2] < r)
  }

  ghost predicate Stage(rates: seq<int>, buckets: Buckets, lenders: seq<AuctionOrder>, offsets: seq<nat>) {
    && |offsets| == |rates| + 1 && offsets[|rates|] == |lenders|
    && LaidOut(|rates|, rates, buckets, lenders, offsets)
  }

  lemma {:induction false} LaidOutAt(k: nat, rates: seq<int>, buckets: Buckets, lenders: seq<AuctionOrder>,
                                     offsets: seq<nat>, j: nat)
    requires j < k <= |rates| && |offsets| == |rates| + 1
    requires LaidOut(k, rates, buckets, lenders, offsets)
    ensures rates[j] in buckets
    ensures var bucket := buckets[rates[j]];
      bucket != [] && AllAtRate(bucket, rates[j]) && BucketAt(offsets[j], offsets[j + 1], lenders, bucket)
    ensures rates[j] <= rates[k - 1] && (j < k - 1 ==> rates[j] < rates[k - 1])
  {
    if j < k - 1 {
      LaidOutAt(k - 1, rates, buckets, lenders, offsets, j);
    }
  }

  lemma {:induction false} LaidOutPrefix(k: nat, rates: seq<int>, buckets: Buckets, lenders: seq<AuctionOrder>,
                                         offsets: seq<nat>, j: nat)
    requires j <= k <= |rates| && |offsets| == |rates| + 1
    requires LaidOut(k, rates, buckets, lenders, offsets)
    ensures LaidOut(j, rates, buckets, lenders, offsets)
  {
    if j < k {
      LaidOutPrefix(k - 1, rates, buckets, lenders, offsets, j);
    }
  }

  lemma StageAt(rates: seq<int>, buckets: Buckets, lenders: seq<AuctionOrder>, offsets: seq<nat>, k: nat, j: nat)
    requires Stage(rates, buckets, lenders, offsets) && k <= j < |rates|
    ensures rates[j] in buckets
    ensures var bucket := buckets[rates[j]];
      bucket != [] && AllAtRate(bucket, rates[j]) && BucketAt(offsets[j], offsets[j + 1], lenders, bucket)
    ensures k < j ==> rates[k] < rates[j]
  {
    LaidOutPrefix(|rates|, rates, buckets, lenders, offsets, j + 1);
    LaidOutAt(j + 1, rates, buckets, lenders, offsets, j);
    LaidOutAt(j + 1, rates, buckets, lenders, offsets, k);
  }

  /** A longer list of rates and lenders leaves the first buckets where they were. */
  lemma {:induction false} LaidOutExtends(k: nat, rates: seq<int>, rates': seq<int>, buckets: Buckets,
                                          lenders: seq<AuctionOrder>, lenders': seq<AuctionOrder>,
                                          offsets: seq<nat>, offsets': seq<nat>)
    requires k <= |rates| && |offsets| == |rates| + 1 && |offsets'| == |rates'| + 1
    requires rates <= rates' && offsets <= offsets' && lenders <= lenders'
    requires LaidOut(k, rates, buckets, lenders, offsets)
    ensures LaidOut(k, rates', buckets, lenders', offsets')
  {
    if k > 0 {
      LaidOutExtends(k - 1, rates, rates', buckets, lenders, lenders', offsets, offsets');
    }
  }

  lemma {:induction false} FlattenStage(rates: seq<int>, buckets: Buckets) returns (offsets: seq<nat>)
    requires forall i, j :: 0 <= i < j < |rates| ==> rates[i] < rates[j]
    requires forall i :: 0 <= i < |rates| ==> rates[i] in buckets
    requires forall r :: r in buckets ==> buckets[r] != [] && AllAtRate(buckets[r], r)
    ensures Stage(rates, buckets, Flatten(rates, buckets), offsets)
  {
    if rates == [] {
      offsets := [0];
    } else {
      var n := |rates| - 1;
      var front := FlattenStage(rates[..n], buckets);
      var head, all := Flatten(rates[..n], buckets), Flatten(rates, buckets);
      offsets := front + [|all|];
      LaidOutExtends(n, rates[..n], rates, buckets, head, all, front, offsets);
    }
  }

  // ---------- Serving one borrower ----------

  /** One borrower's turn as it is going to go: its position in the service order and its
      limit, the lenders in rate order with their lists and amounts left before the turn,
      what each visit will take, and what is still needed after each number of visits. */
  datatype Turn = Turn(index: nat, limit: int, lenders: seq<AuctionOrder>, before: seq<Option<seq<Detail>>>,
                       rem: seq<int>, walk: seq<int>, needs: seq<int>)
  {
    /** Every visit is made while there is need, at a lender that is not too dear, and takes
        the smaller of the need and the lender's rest; the walk ends when the need is met, or
        no lender is left, or the next one is too dear. */
    ghost predicate IsWalk() {
      && |walk| <= |lenders| == |rem| && |needs| == |walk| + 1
      && (forall k :: 0 <= k < |walk| ==> Visits(k))
      && (needs[|walk|] <= 0 || |walk| == |lenders| || limit < lenders[|walk|].interestRate)
    }

    predicate Visits(k: nat) {
      && k < |walk| <= |lenders| == |rem| && |needs| == |walk| + 1
      && 0 < needs[k] && lenders[k].interestRate <= limit
      && walk[k] == (if needs[k] - rem[k] >= 0 then rem[k] else needs[k])
      && needs[k + 1] == needs[k] - walk[k]
    }

    ghost predicate Planned() {
      && IsWalk() && |before| == |lenders| && Distinct(lenders)
      && forall l :: 0 <= l < |lenders| ==> rem[l] == lenders[l].amount - TotalOf(Listed(before[l]))
    }

    /** The first records of the walk: made for lenders 0, 1, ... in turn, each with the
        amount the walk gives it. */
    ghost predicate Walked(made: seq<Detail>) {
      && |made| <= |walk| && |made| <= |lenders|
      && forall i :: 0 <= i < |made| ==>
        && made[i].turn == index && made[i].seat == i
        && made[i].id == lenders[i].id && made[i].matchedAmount == walk[i]
    }

    /** They carry the visited lenders' own rates until the clearing rate is known. */
    ghost predicate AtOwnRate(made: seq<Detail>)
      reads made
    {
      |made| <= |lenders| && forall i :: 0 <= i < |made| ==> made[i].matchedInterestRate == lenders[i].interestRate
    }

    /** Each visited lender's list has grown by the record made for it; the rest is as before. */
    ghost predicate Pushed(made: seq<Detail>)
      reads lenders
    {
      && |before| == |lenders|
      && forall l :: 0 <= l < |lenders| ==>
        lenders[l].matchedDetails == if l < |made| then Some(Listed(before[l]) + [made[l]]) else before[l]
    }

    ghost predicate UnderWay(made: seq<Detail>)
      reads made, lenders
    {
      Walked(made) && AtOwnRate(made) && Pushed(made)
    }
  }

  lemma {:induction false} VisitIsWalk(index: nat, limit: int, need: int, lenders: seq<AuctionOrder>,
                                       before: seq<Option<seq<Detail>>>, rem: seq<int>)
    returns (needs: seq<int>)
    requires |rem| == |lenders|
    decreases |lenders|
    ensures Turn(index, limit, lenders, before, rem, Visit(Rates(lenders), rem, limit, need), needs).IsWalk()
      && needs[0] == need
  {
    var walk := Visit(Rates(lenders), rem, limit, need);
    if walk == [] {
      needs := [need];
    } else {
      var rest := VisitIsWalk(index, limit, need - walk[0], lenders[1..], before, rem[1..]);
      needs := [need] + rest;
      assert Rates(lenders)[1..] == Rates(lenders[1..]);
      var walk' := Visit(Rates(lenders[1..]), rem[1..], limit, need - walk[0]);
      assert walk == [walk[0]] + walk';
      var t := Turn(index, limit, lenders, before, rem, walk, needs);
      var t' := Turn(index, limit, lenders[1..], before, rem[1..], walk', rest);
      forall k: nat | k < |walk|
        ensures t.Visits(k)
      {
        if k > 0 { assert t'.Visits(k - 1); }
      }
    }
  }

  lemma UnderWayGrows(t: Turn, sofar: seq<Detail>, detail: Detail)
    requires t.Walked(sofar) && t.AtOwnRate(sofar) && |t.before| == |t.lenders|
    requires |sofar| < |t.walk| && |sofar| < |t.lenders|
    requires forall l :: 0 <= l < |t.lenders| && l != |sofar| ==>
      t.lenders[l].matchedDetails == if l < |sofar| then Some(Listed(t.before[l]) + [sofar[l]]) else t.before[l]
    requires t.lenders[|sofar|].matchedDetails == Some(Listed(t.before[|sofar|]) + [detail])
    requires detail.turn == t.index && detail.seat == |sofar| && detail.id == t.lenders[|sofar|].id
    requires detail.matchedAmount == t.walk[|sofar|]
    requires detail.matchedInterestRate == t.lenders[|sofar|].interestRate
    ensures t.UnderWay(sofar + [detail])
  {
    assert t.Pushed(sofar + [detail]);
  }

  /** The lender gives what it can, at its own rate, and lists the record of it. */
  method LendTo(lendOrder: AuctionOrder, lendInterest: int, remainBorrowAmount: int, ghost turn: nat, ghost seat: nat)
    returns (detail: Detail)
    modifies lendOrder
    ensures fresh(detail) && detail.turn == turn && detail.seat == seat && detail.id == lendOrder.id
    ensures detail.matchedAmount
         == if remainBorrowAmount - old(lendOrder.RemainAmount()) >= 0 then old(lendOrder.RemainAmount())
           else remainBorrowAmount
    ensures detail.matchedInterestRate == lendInterest
    ensures lendOrder.matchedDetails == Some(Listed(old(lendOrder.matchedDetails)) + [detail])
  {
    var lendAmount := if remainBorrowAmount - lendOrder.RemainAmount() >= 0 then lendOrder.RemainAmount()
      else remainBorrowAmount;
    detail := new Detail(lendOrder.id, lendAmount, lendInterest, turn, seat);
    lendOrder.AddMatchedDetail(detail);
  }

  /** One visit of the turn. */
  method VisitOne(lendOrder: AuctionOrder, lendInterest: int, remainBorrowAmount: int, sofar: seq<Detail>,
                  ghost t: Turn)
    returns (rest: int, made: seq<Detail>)
    requires t.Planned() && t.UnderWay(sofar)
    requires remainBorrowAmount == t.needs[|sofar|] > 0
    requires |sofar| < |t.lenders| && lendOrder == t.lenders[|sofar|]
      && lendOrder.interestRate == lendInterest <= t.limit
    modifies lendOrder
    ensures |made| == |sofar| + 1 && fresh(made[|sofar|])
    ensures sofar < made && forall i :: 0 <= i < |sofar| ==> made[i] == sofar[i]
    ensures t.UnderWay(made) && rest == t.needs[|made|]
  {
    assert t.Visits(|sofar|);
    var detail := LendTo(lendOrder, lendInterest, remainBorrowAmount, t.index, |sofar|);
    rest := remainBorrowAmount - detail.matchedAmount;
    UnderWayGrows(t, sofar, detail);
    made := sofar + [detail];
  }

  /** The inner loop: one bucket, from its first lender on. */
  method VisitBucket(bucket: seq<AuctionOrder>, lendInterest: int, remainBorrowAmount: int, sofar: seq<Detail>,
                     ghost t: Turn)
    returns (rest: int, made: seq<Detail>)
    requires t.Planned() && t.UnderWay(sofar)
    requires remainBorrowAmount == t.needs[|sofar|] > 0
    requires BucketAt(|sofar|, |sofar| + |bucket|, t.lenders, bucket)
    requires AllAtRate(bucket, lendInterest) && lendInterest <= t.limit
    modifies t.lenders
    ensures t.UnderWay(made) && rest == t.needs[|made|]
    ensures sofar <= made && forall i :: |sofar| <= i < |made| ==> fresh(made[i])
    ensures rest > 0 ==> |made| == |sofar| + |bucket|
  {
    rest, made := remainBorrowAmount, sofar;
    var index := 0;
    while index < |bucket|
      invariant 0 <= index <= |bucket|
      invariant t.UnderWay(made) && rest == t.needs[|made|]
      invariant sofar <= made && forall i :: |sofar| <= i < |made| ==> fresh(made[i])
      invariant rest > 0 ==> |made| == |sofar| + index
    {
      if rest <= 0 {
        break;
      }
      ghost var before := made;
      rest, made := VisitOne(bucket[index], lendInterest, rest, made, t);
      forall i | |sofar| <= i < |made| ensures fresh(made[i]) {
        if i < |before| {
          assert fresh(before[i]) && made[i] == before[i];
        } else {
          assert i == |before|;
        }
      }
      index := index + 1;
    }
  }

  /** Of the first j buckets k have been visited, in full unless the need is met; the first
      one that was not was too dear. */
  predicate Through(limit: int, rest: int, rates: seq<int>, offsets: seq<nat>, visited: nat, j: nat, k: nat)
    requires |offsets| == |rates| + 1 && j <= |rates|
  {
    k <= j && (rest > 0 ==> visited == offsets[k] && (k < j ==> limit < rates[k]))
  }

  /** One turn of the loop over the rates. */
  method VisitRate(limit: int, remainBorrowAmount: int, rates: seq<int>, buckets: Buckets, j: nat, sofar: seq<Detail>,
                   ghost offsets: seq<nat>, ghost t: Turn, ghost k: nat)
    returns (rest: int, made: seq<Detail>, ghost k': nat)
    requires t.Planned() && t.UnderWay(sofar) && limit == t.limit
    requires Stage(rates, buckets, t.lenders, offsets) && j < |rates|
    requires remainBorrowAmount == t.needs[|sofar|] > 0
    requires Through(limit, remainBorrowAmount, rates, offsets, |sofar|, j, k)
    modifies t.lenders
    ensures t.UnderWay(made) && rest == t.needs[|made|]
    ensures sofar <= made && forall i :: |sofar| <= i < |made| ==> fresh(made[i])
    ensures Through(limit, rest, rates, offsets, |made|, j + 1, k')
  {
    rest, made, k' := remainBorrowAmount, sofar, k;
    var lendInterest := rates[j];
    StageAt(rates, buckets, t.lenders, offsets, k, j);
    if |buckets[lendInterest]| > 0 && limit >= lendInterest {
      rest, made := VisitBucket(buckets[lendInterest], lendInterest, remainBorrowAmount, sofar, t);
      k' := j + 1;
    }
  }

  /** With the need met, or the first k buckets visited and the next one too dear, the walk
      is over. */
  lemma WalkIsOver(t: Turn, rates: seq<int>, buckets: Buckets, offsets: seq<nat>, visited: nat, j: nat, k: nat)
    requires Stage(rates, buckets, t.lenders, offsets) && t.IsWalk() && visited <= |t.walk|
    requires j <= |rates| && Through(t.limit, t.needs[visited], rates, offsets, visited, j, k)
    requires j == |rates| || t.needs[visited] <= 0
    ensures visited == |t.walk|
  {
    if k < |rates| {
      StageAt(rates, buckets, t.lenders, offsets, k, k);
      assert t.lenders[offsets[k]] == buckets[rates[k]][0];
    }
    assert visited < |t.walk| ==> t.Visits(visited);
  }

  /** The loop over the rates. Whatever the nesting, it makes one walk over all lenders. */
  method VisitLenders(limit: int, need: int, rates: seq<int>, buckets: Buckets, ghost offsets: seq<nat>, ghost t: Turn)
    returns (made: seq<Detail>)
    requires t.Planned() && t.UnderWay([]) && limit == t.limit && need == t.needs[0]
    requires Stage(rates, buckets, t.lenders, offsets)
    modifies t.lenders
    ensures t.UnderWay(made) && |made| == |t.walk|
    ensures forall i :: 0 <= i < |made| ==> fresh(made[i])
    ensures forall d: Detail :: old(allocated(d)) ==> d.matchedInterestRate == old(d.matchedInterestRate)
  {
    var rest := need;
    made := [];
    ghost var k := 0;
    LaidOutPrefix(|rates|, rates, buckets, t.lenders, offsets, 0);
    var j := 0;
    while j < |rates|
      invariant 0 <= j <= |rates|
      invariant t.UnderWay(made) && rest == t.needs[|made|]
      invariant forall i :: 0 <= i < |made| ==> fresh(made[i])
      invariant Through(limit, rest, rates, offsets, |made|, j, k)
    {
      if rest <= 0 {
        break;
      }
      rest, made, k := VisitRate(limit, rest, rates, buckets, j, made, offsets, t, k);
      j := j + 1;
    }
    WalkIsOver(t, rates, buckets, offsets, |made|, j, k);
  }

  /** All records of one borrower get the highest rate among them. */
  method AssignClearingRate(matchDetailList: seq<Detail>) returns (maxRate: int)
    requires matchDetailList != []
    requires forall i, j :: 0 <= i < j < |matchDetailList| ==> matchDetailList[i] != matchDetailList[j]
    modifies matchDetailList
    ensures forall i :: 0 <= i < |matchDetailList| ==> matchDetailList[i].matchedInterestRate == maxRate
    ensures forall i :: 0 <= i < |matchDetailList| ==> old(matchDetailList[i].matchedInterestRate) <= maxRate
    ensures exists i :: 0 <= i < |matchDetailList| && old(matchDetailList[i].matchedInterestRate) == maxRate
  {
    var rates := seq(|matchDetailList|,
      i requires 0 <= i < |matchDetailList| reads matchDetailList => matchDetailList[i].matchedInterestRate);
    maxRate := BigIntMax(rates);
    BigIntMaxIsMax(rates);
    for i := 0 to |matchDetailList|
      invariant forall k :: 0 <= k < i ==> matchDetailList[k].matchedInterestRate == maxRate
    {
      matchDetailList[i].matchedInterestRate := maxRate;
    }
    assert forall i :: 0 <= i < |rates| ==> rates[i] == old(matchDetailList[i].matchedInterestRate);
  }

  /** A borrower's records all carry the rate of the last lender it visited. */
  ghost predicate Cleared(made: seq<Detail>, lenders: seq<AuctionOrder>)
    requires |made| <= |lenders|
    reads made
  {
    forall i :: 0 <= i < |made| ==> made[i].matchedInterestRate == lenders[|made| - 1].interestRate
  }

  /** Lenders stand in rate order, so the highest rate is that of the last one visited. */
  method ClearRecords(made: seq<Detail>, ghost t: Turn)
    requires t.Walked(made) && t.AtOwnRate(made) && Sorted(t.lenders, RateOf)
    modifies made
    ensures Cleared(made, t.lenders)
    ensures forall d: Detail :: old(allocated(d)) && d !in made ==> d.matchedInterestRate == old(d.matchedInterestRate)
  {
    if made != [] {
      assert forall i, j :: 0 <= i < j < |made| ==> made[i].seat != made[j].seat;
      var maxRate := AssignClearingRate(made);
      assert forall i :: 0 <= i < |made| ==> RateOf(t.lenders[i]) <= RateOf(t.lenders[|made| - 1]);
    }
  }

  /** The walk over all lenders, and then one rate for all its records. */
  method VisitAndClear(limit: int, need: int, rates: seq<int>, buckets: Buckets, ghost offsets: seq<nat>,
                       ghost t: Turn)
    returns (made: seq<Detail>)
    requires t.Planned() && t.UnderWay([]) && limit == t.limit && need == t.needs[0] && Sorted(t.lenders, RateOf)
    requires Stage(rates, buckets, t.lenders, offsets)
    modifies t.lenders
    ensures t.Walked(made) && |made| == |t.walk| && t.Pushed(made) && Cleared(made, t.lenders)
    ensures forall i :: 0 <= i < |made| ==> fresh(made[i])
    ensures forall d: Detail :: old(allocated(d)) ==> d.matchedInterestRate == old(d.matchedInterestRate)
  {
    made := VisitLenders(limit, need, rates, buckets, offsets, t);
    ClearRecords(made, t);
  }

  /** One borrower's turn: the walk over all lenders, the clearing rate, and its own list. */
  method ServeBorrower(borrower: AuctionOrder, rates: seq<int>, buckets: Buckets, ghost offsets: seq<nat>,
                       ghost t: Turn)
    returns (made: seq<Detail>)
    requires t.Planned() && t.UnderWay([]) && borrower !in t.lenders && Sorted(t.lenders, RateOf)
    requires borrower.interestRate == t.limit && borrower.RemainAmount() == t.needs[0]
    requires Stage(rates, buckets, t.lenders, offsets)
    modifies borrower, t.lenders
    ensures t.Walked(made) && |made| == |t.walk| && t.Pushed(made) && Cleared(made, t.lenders)
    ensures forall i :: 0 <= i < |made| ==> fresh(made[i])
    ensures borrower.matchedDetails == Some(Listed(old(borrower.matchedDetails)) + made)
    ensures forall d: Detail :: old(allocated(d)) ==> d.matchedInterestRate == old(d.matchedInterestRate)
  {
    made := VisitAndClear(borrower.interestRate, borrower.RemainAmount(), rates, buckets, offsets, t);
    borrower.AddMatchedDetails(made);
  }

  // ---------- The whole round ----------

  function Terms(orders: seq<AuctionOrder>): (r: seq<Borrower>) {
    seq(|orders|, i requires 0 <= i < |orders| => Borrower(orders[i].interestRate, orders[i].amount))
  }

  /** The records made at lender l, in the order of the borrowers. */
  function RecordsAt(fills: seq<seq<Detail>>, l: nat): seq<Detail> {
    if fills == [] then []
    else
      var last := fills[|fills| - 1];
      RecordsAt(fills[..|fills| - 1], l) + if l < |last| then [last[l]] else []
  }

  /** A list is started by the first record pushed onto it. */
  function ListOf(records: seq<Detail>): Option<seq<Detail>> {
    if records == [] then None else Some(records)
  }

  function ListsOf(fills: seq<seq<Detail>>, n: nat): (r: seq<Option<seq<Detail>>>) {
    seq(n, l requires 0 <= l < n => ListOf(RecordsAt(fills, l)))
  }

  /** The first |fills| borrowers have been served: each lists its own records, and each
      lender lists the very same objects. */
  ghost predicate Shared(bs: seq<AuctionOrder>, lenders: seq<AuctionOrder>, fills: seq<seq<Detail>>)
    reads bs, lenders
  {
    && |fills| <= |bs|
    && (forall b :: 0 <= b < |bs| ==> bs[b].matchedDetails == if b < |fills| then Some(fills[b]) else None)
    && (forall l :: 0 <= l < |lenders| ==> lenders[l].matchedDetails == ListOf(RecordsAt(fills, l)))
  }

  /** The records of borrower b: one for each of the first lenders, in rate order, with the
      amounts of the matching on values. */
  ghost predicate RecordsOf(made: seq<Detail>, b: nat, amounts: seq<int>, lenders: seq<AuctionOrder>) {
    && |made| == |amounts| <= |lenders|
    && forall i :: 0 <= i < |made| ==>
      && made[i].turn == b && made[i].seat == i
      && made[i].id == lenders[i].id && made[i].matchedAmount == amounts[i]
  }

  ghost predicate Valued(lenders: seq<AuctionOrder>, fills: seq<seq<Detail>>, values: seq<seq<int>>) {
    && |fills| == |values|
    && forall b :: 0 <= b < |fills| ==> RecordsOf(fills[b], b, values[b], lenders)
  }

  /** Each borrower's records all carry one rate, that of the last lender it visited. */
  ghost predicate AllCleared(lenders: seq<AuctionOrder>, fills: seq<seq<Detail>>)
    reads *
  {
    forall b :: 0 <= b < |fills| ==> |fills[b]| <= |lenders| && Cleared(fills[b], lenders)
  }

  lemma {:induction false} RecordedTotal(lenders: seq<AuctionOrder>, fills: seq<seq<Detail>>, values: seq<seq<int>>,
                                         l: nat)
    requires Valued(lenders, fills, values) && l < |lenders|
    ensures TotalOf(RecordsAt(fills, l)) == LenderTotal(values, l)
  {
    if fills != [] {
      var n := |fills| - 1;
      RecordedTotal(lenders, fills[..n], values[..n], l);
      SumToSame(n, b => Cell(values[..n], b, l), b => Cell(values, b, l));
      TotalOfMore(RecordsAt(fills[..n], l), fills[n], l);
    }
  }

  lemma {:induction false} TotalOfMore(records: seq<Detail>, last: seq<Detail>, l: nat)
    ensures TotalOf(records + if l < |last| then [last[l]] else [])
         == TotalOf(records) + if l < |last| then last[l].matchedAmount else 0
  {
    if l < |last| {
      assert (records + [last[l]])[..|records|] == records;
    } else {
      assert records + [] == records;
    }
  }

  lemma {:induction false} RestsBefore(lenders: seq<AuctionOrder>, fills: seq<seq<Detail>>, values: seq<seq<int>>)
    requires Valued(lenders, fills, values)
    ensures forall l :: 0 <= l < |lenders| ==>
      Remaining(Amounts(lenders), values)[l] == lenders[l].amount - TotalOf(Listed(ListsOf(fills, |lenders|)[l]))
  {
    forall l | 0 <= l < |lenders|
      ensures Remaining(Amounts(lenders), values)[l]
        == lenders[l].amount - TotalOf(Listed(ListsOf(fills, |lenders|)[l]))
    {
      RecordedTotal(lenders, fills, values, l);
      RemainingIsRest(Amounts(lenders), values, l);
    }
  }

  lemma SharedGrows(bs: seq<AuctionOrder>, t: Turn, fills: seq<seq<Detail>>, made: seq<Detail>)
    requires |fills| < |bs|
    requires forall b :: 0 <= b < |bs| && b != |fills| ==>
      bs[b].matchedDetails == if b < |fills| then Some(fills[b]) else None
    requires bs[|fills|].matchedDetails == Some(made)
    requires t.before == ListsOf(fills, |t.lenders|) && t.Pushed(made)
    ensures Shared(bs, t.lenders, fills + [made])
  {
    var lenders := t.lenders;
    assert (fills + [made])[..|fills|] == fills;
    forall l | 0 <= l < |lenders|
      ensures lenders[l].matchedDetails == ListOf(RecordsAt(fills + [made], l))
    {
      var records := RecordsAt(fills, l);
      assert RecordsAt(fills + [made], l) == if l < |made| then records + [made[l]] else records + [];
      assert records + [] == records;
      assert ListsOf(fills, |lenders|)[l] == ListOf(records) && Listed(ListOf(records)) == records;
    }
  }

  /** The turn that borrower |fills| is about to take. */
  lemma NextTurn(bs: seq<AuctionOrder>, lenders: seq<AuctionOrder>, fills: seq<seq<Detail>>, values: seq<seq<int>>)
    returns (t: Turn)
    requires |fills| < |bs| && Distinct(lenders)
    requires Shared(bs, lenders, fills) && Valued(lenders, fills, values)
    ensures t.index == |fills| && t.lenders == lenders && t.limit == bs[|fills|].interestRate
    ensures t.Planned() && t.UnderWay([]) && t.needs[0] == bs[|fills|].amount
    ensures t.before == ListsOf(fills, |lenders|)
    ensures t.walk
         == Visit(Rates(lenders), Remaining(Amounts(lenders), values), bs[|fills|].interestRate, bs[|fills|].amount)
  {
    var b, rem := bs[|fills|], Remaining(Amounts(lenders), values);
    var needs := VisitIsWalk(|fills|, b.interestRate, b.amount, lenders, ListsOf(fills, |lenders|), rem);
    t := Turn(|fills|, b.interestRate, lenders, ListsOf(fills, |lenders|), rem,
              Visit(Rates(lenders), rem, b.interestRate, b.amount), needs);
    RestsBefore(lenders, fills, values);
  }

  /** The turn of the next borrower. */
  method ServeNext(bs: seq<AuctionOrder>, index: nat, rates: seq<int>, buckets: Buckets, ghost offsets: seq<nat>,
                   ghost fills: seq<seq<Detail>>, ghost t: Turn)
    returns (made: seq<Detail>)
    requires t.Planned() && t.UnderWay([]) && Sorted(t.lenders, RateOf)
    requires t.before == ListsOf(fills, |t.lenders|)
    requires Stage(rates, buckets, t.lenders, offsets)
    requires index == |fills| < |bs| && bs[index].interestRate == t.limit && bs[index].amount == t.needs[0]
    requires Distinct(bs) && forall b :: 0 <= b < |bs| ==> bs[b] !in t.lenders
    requires Shared(bs, t.lenders, fills)
    modifies bs[index], t.lenders
    ensures t.Walked(made) && |made| == |t.walk| && Cleared(made, t.lenders)
    ensures Shared(bs, t.lenders, fills + [made])
    ensures forall d: Detail :: old(allocated(d)) ==> d.matchedInterestRate == old(d.matchedInterestRate)
  {
    assert forall b :: 0 <= b < |bs| && b != index ==> bs[b] != bs[index];
    made := ServeBorrower(bs[index], rates, buckets, offsets, t);
    assert forall b :: 0 <= b < |bs| && b != index ==> bs[b].matchedDetails == old(bs[b].matchedDetails);
    assert Listed(None) + made == made;
    SharedGrows(bs, t, fills, made);
  }

  /** It leaves the records of earlier turns at their rates. */
  method ServeCleared(bs: seq<AuctionOrder>, index: nat, rates: seq<int>, buckets: Buckets, ghost offsets: seq<nat>,
                      ghost fills: seq<seq<Detail>>, ghost t: Turn)
    returns (made: seq<Detail>)
    requires t.Planned() && t.UnderWay([]) && Sorted(t.lenders, RateOf)
    requires t.before == ListsOf(fills, |t.lenders|)
    requires Stage(rates, buckets, t.lenders, offsets)
    requires index == |fills| < |bs| && bs[index].interestRate == t.limit && bs[index].amount == t.needs[0]
    requires Distinct(bs) && forall b :: 0 <= b < |bs| ==> bs[b] !in t.lenders
    requires Shared(bs, t.lenders, fills) && AllCleared(t.lenders, fills)
    modifies bs[index], t.lenders
    ensures t.Walked(made) && |made| == |t.walk|
    ensures Shared(bs, t.lenders, fills + [made]) && AllCleared(t.lenders, fills + [made])
  {
    made := ServeNext(bs, index, rates, buckets, offsets, fills, t);
    forall b | 0 <= b < |fills| ensures Cleared(fills[b], t.lenders) {
      assert old(Cleared(fills[b], t.lenders));
    }
    AllClearedGrows(t.lenders, fills, made);
  }

  /** The orders that got something, in their order. */
  function MatchedOnes(orders: seq<AuctionOrder>): seq<AuctionOrder>
    reads orders
  {
    if orders == [] then []
    else
      var last := orders[|orders| - 1];
      MatchedOnes(orders[..|orders| - 1]) + if last.MatchedAmount() > 0 then [last] else []
  }

  /** What a whole round leaves behind, for borrowers in service order and lenders in rate order. */
  ghost predicate RoundDone(bs: seq<AuctionOrder>, lenders: seq<AuctionOrder>, fills: seq<seq<Detail>>)
    reads *
  {
    && |fills| == |bs| && Shared(bs, lenders, fills)
    && Valued(lenders, fills, Match(Terms(bs), Rates(lenders), Amounts(lenders)))
    && AllCleared(lenders, fills)
  }

  /** Serves the next borrower and adds its turn to the books. */
  method ServeAndBook(bs: seq<AuctionOrder>, index: nat, rates: seq<int>, buckets: Buckets, ghost offsets: seq<nat>,
                      ghost lenders: seq<AuctionOrder>, ghost fills: seq<seq<Detail>>, ghost values: seq<seq<int>>)
    returns (ghost fills': seq<seq<Detail>>, ghost values': seq<seq<int>>)
    requires Stage(rates, buckets, lenders, offsets)
    requires Distinct(lenders) && Sorted(lenders, RateOf) && Distinct(bs)
    requires index == |fills| < |bs|
    requires forall b :: 0 <= b < |bs| ==> bs[b] !in lenders
    requires Shared(bs, lenders, fills) && Valued(lenders, fills, values) && AllCleared(lenders, fills)
    modifies bs[index], lenders
    ensures Shared(bs, lenders, fills') && Valued(lenders, fills', values') && AllCleared(lenders, fills')
    ensures |fills'| == index + 1
    ensures values' == values + [Visit(Rates(lenders), Remaining(Amounts(lenders), values),
                                       bs[index].interestRate, bs[index].amount)]
  {
    ghost var t := NextTurn(bs, lenders, fills, values);
    var made := ServeCleared(bs, index, rates, buckets, offsets, fills, t);
    fills', values' := fills + [made], values + [t.walk];
    ValuedGrows(lenders, fills, values, made, t);
  }

  lemma AllClearedGrows(lenders: seq<AuctionOrder>, fills: seq<seq<Detail>>, made: seq<Detail>)
    requires AllCleared(lenders, fills) && |made| <= |lenders| && Cleared(made, lenders)
    ensures AllCleared(lenders, fills + [made])
  {
  }

  lemma ValuedGrows(lenders: seq<AuctionOrder>, fills: seq<seq<Detail>>, values: seq<seq<int>>, made: seq<Detail>,
                    t: Turn)
    requires Valued(lenders, fills, values)
    requires t.index == |fills| && t.lenders == lenders && t.Walked(made) && |made| == |t.walk|
    ensures Valued(lenders, fills + [made], values + [t.walk])
  {
    var fills', values' := fills + [made], values + [t.walk];
    forall b | 0 <= b < |fills'|
      ensures RecordsOf(fills'[b], b, values'[b], lenders)
    {
      if b < |fills| { assert RecordsOf(fills[b], b, values[b], lenders); }
    }
  }

  method ServeAll(borrowOrders: seq<AuctionOrder>, rates: seq<int>, buckets: Buckets,
                  ghost offsets: seq<nat>, ghost lenders: seq<AuctionOrder>)
    returns (ghost fills: seq<seq<Detail>>)
    requires Stage(rates, buckets, lenders, offsets)
    requires Distinct(lenders) && Sorted(lenders, RateOf) && Distinct(borrowOrders)
    requires forall b :: 0 <= b < |borrowOrders| ==> borrowOrders[b] !in lenders
    requires Shared(borrowOrders, lenders, [])
    modifies borrowOrders, lenders
    ensures RoundDone(borrowOrders, lenders, fills)
  {
    ghost var terms, values := Terms(borrowOrders), [];
    fills := [];
    var i := 0;
    while i < |borrowOrders|
      invariant 0 <= i <= |borrowOrders| && |fills| == i
      invariant values == Match(terms[..i], Rates(lenders), Amounts(lenders))
      invariant Shared(borrowOrders, lenders, fills) && Valued(lenders, fills, values) && AllCleared(lenders, fills)
    {
      MatchOneMore(terms, Rates(lenders), Amounts(lenders), i);
      fills, values := ServeAndBook(borrowOrders, i, rates, buckets, offsets, lenders, fills, values);
      i := i + 1;
    }
    assert terms[..i] == terms;
  }

  lemma BucketsAreStage(lenders: seq<AuctionOrder>, rates: seq<int>, buckets: Buckets) returns (offsets: seq<nat>)
    requires Bucketed(lenders, rates, buckets)
    ensures Stage(rates, buckets, Flatten(rates, buckets), offsets)
  {
    forall r | r in buckets
      ensures AllAtRate(buckets[r], r)
    {
      PickSound(lenders, RateOf, r);
      assert BucketFor(buckets, r) == Pick(lenders, RateOf, r);
      assert forall i :: 0 <= i < |buckets[r]| ==> RateOf(buckets[r][i]) == r;
    }
    offsets := FlattenStage(rates, buckets);
  }

  lemma {:induction false} SortedOrders(orders: seq<AuctionOrder>, key: AuctionOrder -> int)
    requires Distinct(orders)
    ensures Distinct(Sort(orders, key)) && Sorted(Sort(orders, key), key)
    ensures forall i :: 0 <= i < |Sort(orders, key)| ==> Sort(orders, key)[i] in orders
  {
    SortDistinct(orders, key);
    SortIsStable(orders, key);
    SortMultiset(orders, key);
    forall i | 0 <= i < |Sort(orders, key)|
      ensures Sort(orders, key)[i] in orders
    {
      assert Sort(orders, key)[i] in multiset(Sort(orders, key));
    }
  }

  method GetMatchedOrders(unSortedBorrowOrders: seq<AuctionOrder>, lendOrders: seq<AuctionOrder>)
    returns (matchedBorrowOrders: seq<AuctionOrder>, matchedLendOrders: seq<AuctionOrder>,
        ghost fills: seq<seq<Detail>>)
    requires Distinct(unSortedBorrowOrders) && Distinct(lendOrders)
    requires forall o :: o in unSortedBorrowOrders ==> o !in lendOrders
    requires forall o :: o in unSortedBorrowOrders || o in lendOrders ==> o.matchedDetails == None
    modifies unSortedBorrowOrders, lendOrders
    ensures RoundDone(Sort(unSortedBorrowOrders, TimeOf), Sort(lendOrders, RateOf), fills)
    ensures matchedBorrowOrders == MatchedOnes(Sort(unSortedBorrowOrders, TimeOf))
    ensures matchedLendOrders == MatchedOnes(Sort(lendOrders, RateOf))
  {
    var borrowOrders := Sort(unSortedBorrowOrders, TimeOf);
    SortedOrders(unSortedBorrowOrders, TimeOf);
    SortedOrders(lendOrders, RateOf);
    var buckets, rates := GetLendOrderInterestMap(lendOrders);
    var lenders := Flatten(rates, buckets);
    BucketsAreStableSort(lendOrders, rates, buckets);
    ghost var offsets := BucketsAreStage(lendOrders, rates, buckets);
    fills := ServeAll(borrowOrders, rates, buckets, offsets, lenders);
    matchedBorrowOrders := MatchedOnes(borrowOrders);
    matchedLendOrders := MatchedOnes(lenders);
  }

  lemma {:induction false} MatchOneMore(bs: seq<Borrower>, rates: seq<int>, amounts: seq<int>, i: nat)
    requires |amounts| == |rates| && i < |bs|
    ensures var before := Match(bs[..i], rates, amounts);
      Match(bs[..i + 1], rates, amounts)
        == before + [Visit(rates, Remaining(amounts, before), bs[i].limit, bs[i].amount)]
  {
    assert bs[..i + 1][..i] == bs[..i];
  }

  // ---------- The engine ----------

  datatype OrderType = Borrow | Lend | Other

  function IdOf(order: AuctionOrder): int { order.id }

  predicate SameTerms(a: AuctionOrder, b: AuctionOrder) {
    a.id == b.id && a.interestRate == b.interestRate && a.amount == b.amount && a.createdTime == b.createdTime
  }

  /** New order objects with the terms of the given ones, never matched. */
  method Clone(orders: seq<AuctionOrder>) returns (clones: seq<AuctionOrder>)
    ensures |clones| == |orders| && Distinct(clones)
    ensures forall i :: 0 <= i < |clones| ==>
      fresh(clones[i]) && clones[i].matchedDetails == None && SameTerms(clones[i], orders[i])
  {
    clones := [];
    for i := 0 to |orders|
      invariant |clones| == i && Distinct(clones)
      invariant forall k :: 0 <= k < i ==>
        fresh(clones[k]) && clones[k].matchedDetails == None && SameTerms(clones[k], orders[k])
    {
      var o := orders[i];
      var clone := new AuctionOrder(o.id, o.interestRate, o.amount, o.createdTime);
      clones := clones + [clone];
    }
  }

  class AuctionEngine {
    var borrowOrders: seq<AuctionOrder>
    var lendOrders: seq<AuctionOrder>

    /** Stored orders are never matched in place. */
    ghost predicate Valid()
      reads this, borrowOrders, lendOrders
    {
      && (forall i :: 0 <= i < |borrowOrders| ==> borrowOrders[i].matchedDetails == None)
      && (forall i :: 0 <= i < |lendOrders| ==> lendOrders[i].matchedDetails == None)
    }

    constructor ()
      ensures Valid() && borrowOrders == [] && lendOrders == []
    {
      borrowOrders, lendOrders := [], [];
    }

    /** Adds the order to the list of its type; any other type is an error and adds nothing. */
    method AddOrder(id: int, reqType: OrderType, interestRate: int, amount: int, createdTime: int) returns (ok: bool)
      requires Valid()
      modifies this
      ensures Valid() && ok == !reqType.Other?
      ensures reqType != Borrow ==> borrowOrders == old(borrowOrders)
      ensures reqType != Lend ==> lendOrders == old(lendOrders)
      ensures ok ==> var list, before := if reqType.Borrow? then borrowOrders else lendOrders,
                                         if reqType.Borrow? then old(borrowOrders) else old(lendOrders);
        && |list| == |before| + 1 && list[..|before|] == before && fresh(list[|before|])
        && list[|before|].id == id && list[|before|].interestRate == interestRate
        && list[|before|].amount == amount && list[|before|].createdTime == createdTime
    {
      ok := !reqType.Other?;
      if ok {
        var order := new AuctionOrder(id, interestRate, amount, createdTime);
        if reqType.Borrow? {
          borrowOrders := borrowOrders + [order];
        } else {
          lendOrders := lendOrders + [order];
        }
      }
    }

    /** One round on copies of the stored orders. */
    method MatchClones()
      returns (matchedBorrow: seq<AuctionOrder>, matchedLend: seq<AuctionOrder>,
               ghost borrowers: seq<AuctionOrder>, ghost lenders: seq<AuctionOrder>, ghost fills: seq<seq<Detail>>)
      requires Valid()
      ensures unchanged(this) && unchanged(borrowOrders) && unchanged(lendOrders)
      ensures |borrowers| == |borrowOrders|
      ensures forall i :: 0 <= i < |borrowers| ==> SameTerms(borrowers[i], borrowOrders[i])
      ensures |lenders| == |lendOrders| && forall i :: 0 <= i < |lenders| ==> SameTerms(lenders[i], lendOrders[i])
      ensures RoundDone(Sort(borrowers, TimeOf), Sort(lenders, RateOf), fills)
      ensures matchedBorrow == MatchedOnes(Sort(borrowers, TimeOf))
      ensures matchedLend == MatchedOnes(Sort(lenders, RateOf))
    {
      var borrowClones := Clone(borrowOrders);
      var lendClones := Clone(lendOrders);
      borrowers, lenders := borrowClones, lendClones;
      matchedBorrow, matchedLend, fills := GetMatchedOrders(borrowClones, lendClones);
    }

    /** Matches copies of the stored orders and returns those that got something, by id. The
        stored orders and lists are left as they were. */
    method DoMatchAuctionOrders()
      returns (matchedBorrowOrders: seq<AuctionOrder>, matchedLendOrders: seq<AuctionOrder>,
               ghost borrowers: seq<AuctionOrder>, ghost lenders: seq<AuctionOrder>, ghost fills: seq<seq<Detail>>)
      requires Valid()
      ensures Valid() && unchanged(this) && unchanged(borrowOrders) && unchanged(lendOrders)
      ensures |borrowers| == |borrowOrders|
      ensures forall i :: 0 <= i < |borrowers| ==> SameTerms(borrowers[i], borrowOrders[i])
      ensures |lenders| == |lendOrders| && forall i :: 0 <= i < |lenders| ==> SameTerms(lenders[i], lendOrders[i])
      ensures RoundDone(Sort(borrowers, TimeOf), Sort(lenders, RateOf), fills)
      ensures matchedBorrowOrders == Sort(MatchedOnes(Sort(borrowers, TimeOf)), IdOf)
      ensures matchedLendOrders == Sort(MatchedOnes(Sort(lenders, RateOf)), IdOf)
    {
      var matchedBorrow, matchedLend;
      matchedBorrow, matchedLend, borrowers, lenders, fills := MatchClones();
      matchedBorrowOrders := Sort(matchedBorrow, IdOf);
      matchedLendOrders := Sort(matchedLend, IdOf);
    }
  }
}
