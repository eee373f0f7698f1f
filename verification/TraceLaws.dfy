/** What the entries of a request say to somebody who reads the stored leaves before and after
    it: whose leaves they are, what stood in them and under which roots. */
module TraceLaws {
  import opened Wrappers
  import opened JsBigInt
  import opened Powers
  import opened AmountCodes
  import opened AmountSigns
  import opened Settlement
  import opened LockLedger
  import opened SettlementLaws
  import opened WitnessTrace

  // ---------- Whose leaves are touched ----------

  function Actor(s: State, r: Request): nat {
    match r
    case Start(id) => if id in s.orders then s.orders[id].sender else 0
    case Exchange(id, _, _) => if id in s.orders then s.orders[id].sender else 0
    case End(_, _, _) => if s.held.Some? then s.held.value.sender else 0
    case Noop => 0
    case _ => r.account
  }

  /** The tokens of the two token entries: of a trade the bought and then the sold one. */
  function Tokens(s: State, r: Request): (nat, nat) {
    match r
    case Start(id) => if id in s.orders then (s.orders[id].sellTokenId, s.orders[id].sellTokenId) else (0, 0)
    case Cancel(_, id) => if id in s.orders then (s.orders[id].sellTokenId, s.orders[id].sellTokenId) else (0, 0)
    case Exchange(id, _, _) => if id in s.orders then (s.orders[id].buyTokenId, s.orders[id].sellTokenId) else (0, 0)
    case End(_, _, _) => if s.held.Some? then (s.held.value.buyTokenId, s.held.value.sellTokenId) else (0, 0)
    case Noop => (0, 0)
    case _ => (r.token, r.token)
  }

  function OrderId(s: State, r: Request): nat {
    match r
    case Place(_, _, _, _, _, _, _) => s.currentOrderId
    case Start(id) => id
    case Exchange(id, _, _) => id
    case End(id, _, _) => id
    case Cancel(_, id) => id
    case _ => 0
  }

  // ---------- What is seen of them ----------

  function Stored(s: State, account: nat, token: nat): TokenLeaf {
    TokenLeaf(Available(s, account, token), Locked(s, account, token))
  }

  function Seen(s: State, account: nat): AccountLeaf {
    if Known(s, account) then s.accounts[account] else AccountLeaf(0, 0, Updates(s, account))
  }

  function StoredOrder(s: State, id: nat): OrderLeaf {
    if id in s.orders then s.orders[id] else Blank(0)
  }

  /** Both account entries are the actor's, over the account roots before and after; the first
      holds its leaf before and after, the second its leaf after, twice. */
  lemma {:induction false} AccountEntriesRead(s: State, r: Request)
    requires WellFormed(s) && Do(s, r).Done? && Known(s, Actor(s, r)) && !r.Noop?
    ensures var e, s', a := EntriesOf(s, r), Do(s, r).state, Actor(s, r);
      && a in s'.accounts
      && e.account1 == Entry(a, s.accountRoot, s'.accountRoot, s.accounts[a], s'.accounts[a])
      && (!r.Register? ==> e.account2 == Entry(a, s'.accountRoot, s'.accountRoot, s'.accounts[a], s'.accounts[a]))
  {
    assert (r.Exchange? || r.Cancel?) && r.orderLeafId in s.orders ==> GoodLeaf(s, r.orderLeafId);
  }

  /** The order entry holds the order's leaf before and after, over the order roots. */
  lemma {:induction false} OrderEntryReads(s: State, r: Request)
    requires WellFormed(s) && Do(s, r).Done?
    ensures var e, s', id := EntriesOf(s, r).order, Do(s, r).state, OrderId(s, r);
      e == Entry(id, s.orderRoot, s'.orderRoot, StoredOrder(s, id), StoredOrder(s', id))
  {
    assert r.Cancel? && r.orderLeafId in s.orders ==> GoodLeaf(s, r.orderLeafId);
  }

  /** Of a request that moves one balance the first token entry holds that balance before and
      after, the second the one after, twice, all over the roots of the actor's token tree. */
  lemma {:induction false} TokenEntriesRead(s: State, r: Request)
    requires WellFormed(s) && Do(s, r).Done? && Known(s, Actor(s, r))
    requires r.Deposit? || r.Withdraw? || r.Place? || r.Start? || r.Cancel?
    ensures var e, s', a, t := EntriesOf(s, r), Do(s, r).state, Actor(s, r), Tokens(s, r).0;
      && e.token1 == Entry(t, Updates(s, a), Updates(s', a), Stored(s, a, t), Stored(s', a, t))
      && e.token2 == Entry(t, Updates(s', a), Updates(s', a), Stored(s', a, t), Stored(s', a, t))
  {
    assert (r.Start? || r.Cancel?) && r.orderLeafId in s.orders ==> GoodLeaf(s, r.orderLeafId);
  }

  /** Of a trade the first entry shows the bought amount arrive, and the second the sold amount
      leave; each is one update of the trader's token tree further. */
  lemma {:induction false} TradeEntriesRead(s: State, r: Request)
    requires WellFormed(s) && Do(s, r).Done? && (r.Exchange? || r.End?)
    ensures var e, s', a, t := EntriesOf(s, r), Do(s, r).state, Actor(s, r), Tokens(s, r);
      var paid := TokenLeaf(Available(s, a, t.0) + r.accumulatedBuyAmt, Locked(s, a, t.0));
      && e.token1 == Entry(t.0, Updates(s, a), Updates(s, a) + 1, Stored(s, a, t.0), paid)
      && e.token2 == Entry(t.1, Updates(s, a) + 1, Updates(s', a), if t.0 == t.1 then paid else Stored(s, a, t.1),
                           Stored(s', a, t.1))
  {
    assert r.Exchange? && r.orderLeafId in s.orders ==> GoodLeaf(s, r.orderLeafId);
  }

  /** An account that is not known is seen as an empty leaf over its token tree, and its token
      leaf and root as empty ones, until it is registered; a registration moves no root. */
  lemma {:induction false} RegistrationReads(s: State, r: Request)
    requires r.Register? && Do(s, r).Done?
    ensures var e, s', a, t := EntriesOf(s, r), Do(s, r).state, r.account, r.token;
      && e.account1 == Entry(a, s.accountRoot, s.accountRoot, Seen(s, a), AccountLeaf(r.tsAddr.value, 0, 0))
      && e.account2 == Entry(a, s.accountRoot, s.accountRoot, Seen(s', a), AccountLeaf(r.tsAddr.value, 0, 0))
      && e.token1 == Entry(t, if Known(s, a) then Updates(s, a) else 0, Updates(s, a),
                           if Known(s, a) then Stored(s, a, t) else TokenLeaf(0, 0), Stored(s, a, t))
      && e.token2 == Entry(t, if r.tsAddr.value != 0 then Updates(s, a) else 0, Updates(s, a),
                           if r.tsAddr.value != 0 then Stored(s, a, t) else TokenLeaf(0, 0), Stored(s, a, t))
  {
  }

  /** A no-op reads account 0, its token 0 and order 0, twice the same. */
  lemma {:induction false} NoopReads(s: State)
    ensures var e := EntriesOf(s, Noop);
      var leaf := if 0 in s.accounts then s.accounts[0] else AccountLeaf(0, 0, 0);
      && e.account1 == Entry(0, s.accountRoot, s.accountRoot, Seen(s, 0), leaf) == e.account2
      && e.token1 == Entry(0, if Known(s, 0) then Updates(s, 0) else 0, Updates(s, 0),
                           if Known(s, 0) then Stored(s, 0, 0) else TokenLeaf(0, 0), Stored(s, 0, 0)) == e.token2
      && e.order == Entry(0, s.orderRoot, s.orderRoot, StoredOrder(s, 0), StoredOrder(s, 0))
  {
  }

  // ---------- Where the entries stand ----------

  /** Two entries stand together at place k: their ids as a pair, all else one after the other. */
  ghost predicate PairStands<L>(t: Trace<L>, k: nat, x: Entry<L>, y: Entry<L>) {
    && k < |t.leafId| && t.leafId[k] == [x.id, y.id]
    && 2 * k + 1 < |t.oriLeaf| && t.oriLeaf[2 * k] == x.oriLeaf && t.oriLeaf[2 * k + 1] == y.oriLeaf
    && 2 * k + 1 < |t.newLeaf| && t.newLeaf[2 * k] == x.newLeaf && t.newLeaf[2 * k + 1] == y.newLeaf
    && 2 * k + 1 < |t.rootFlow| && t.rootFlow[2 * k] == [x.before, x.after]
    && t.rootFlow[2 * k + 1] == [y.before, y.after]
  }

  ghost predicate OneStands<L>(t: Trace<L>, k: nat, x: Entry<L>) {
    && k < |t.leafId| && t.leafId[k] == [x.id]
    && k < |t.oriLeaf| && t.oriLeaf[k] == x.oriLeaf
    && k < |t.newLeaf| && t.newLeaf[k] == x.newLeaf
    && k < |t.rootFlow| && t.rootFlow[k] == [x.before, x.after]
  }

  ghost predicate Stand(b: Books, k: nat, e: Entries) {
    && PairStands(b.account, k, e.account1, e.account2)
    && PairStands(b.token, k, e.token1, e.token2)
    && OneStands(b.order, k, e.order)
  }

  /** The books hold these entries, in this order, and no others. */
  ghost predicate Hold(b: Books, es: seq<Entries>) {
    && Shaped(b) && |b.order.rootFlow| == |es|
    && forall k :: 0 <= k < |es| ==> Stand(b, k, es[k])
  }

  lemma HoldOneMore(b: Books, es: seq<Entries>, e: Entries)
    requires Hold(b, es)
    ensures Hold(Touched(b, e), es + [e])
  {
    var b' := Touched(b, e);
    TouchedIsShaped(b, e);
    forall k | 0 <= k < |es| + 1 ensures Stand(b', k, (es + [e])[k]) {
      if k < |es| { assert Stand(b, k, es[k]); }
    }
  }

  /** What one transaction leaves in the trace. */
  function EntriesAt(s: State, tx: Tx): seq<Entries> {
    if !tx.request.Cancel? && Do(s, tx.request).Done? then [EntriesOf(s, tx.request)] else []
  }

  function LogAt(s: State, tx: Tx, latestTxId: int, packs: Packer): seq<Request> {
    if TxRefusal(s, tx, latestTxId, packs).None? then [tx.request] else []
  }

  lemma {:induction false} EntriesGrow(b: Block, s: State, tx: Tx, packs: Packer, es: seq<Entries>)
    requires Hold(b.books, es)
    ensures Hold(Extend(b, s, tx, packs).books, es + EntriesAt(s, tx))
  {
    if EntriesAt(s, tx) == [] {
      assert es + [] == es;
    } else {
      HoldOneMore(b.books, es, EntriesOf(s, tx.request));
    }
  }

  /** The entries of all transactions that got past their lookups. */
  function EntriesOver(s: State, txs: seq<Tx>): seq<Entries> {
    if txs == [] then []
    else
      var front := txs[..|txs| - 1];
      EntriesOver(s, front) + EntriesAt(RunTxs(s, front), txs[|txs| - 1])
  }

  lemma OriKept(b: Block, s: State, tx: Tx, packs: Packer)
    ensures Extend(b, s, tx, packs).oriTxId == b.oriTxId
  {
  }

  lemma {:induction false} OriThroughout(s: State, oriTxId: int, txs: seq<Tx>, packs: Packer)
    ensures BlockOf(s, oriTxId, txs, packs).oriTxId == oriTxId
  {
    if txs != [] {
      var front := txs[..|txs| - 1];
      OriThroughout(s, oriTxId, front, packs);
      OriKept(BlockOf(s, oriTxId, front, packs), RunTxs(s, front), txs[|txs| - 1], packs);
      assert BlockOf(s, oriTxId, txs, packs)
          == Extend(BlockOf(s, oriTxId, front, packs), RunTxs(s, front), txs[|txs| - 1], packs);
    }
  }

  lemma LogGrows(b: Block, s: State, tx: Tx, latestTxId: int, packs: Packer)
    requires latestTxId == b.oriTxId + |b.books.logs|
    ensures Extend(b, s, tx, packs).books.logs == b.books.logs + LogAt(s, tx, latestTxId, packs)
  {
  }

  /** A block starts with an empty log, and each transaction adds its request to it exactly when
      it is not refused, as the next one after those of earlier blocks and those logged. */
  lemma {:induction false} LogInOrder(s: State, oriTxId: int, front: seq<Tx>, tx: Tx, packs: Packer)
    ensures BlockOf(s, oriTxId, [], packs).books.logs == []
    ensures var log := BlockOf(s, oriTxId, front, packs).books.logs;
      BlockOf(s, oriTxId, front + [tx], packs).books.logs
        == log + LogAt(RunTxs(s, front), tx, oriTxId + |log|, packs)
  {
    var b := BlockOf(s, oriTxId, front, packs);
    OriThroughout(s, oriTxId, front, packs);
    LogGrows(b, RunTxs(s, front), tx, oriTxId + |b.books.logs|, packs);
    OneMoreTx(s, oriTxId, front, tx, packs);
  }

  /** A block holds the entries of its transactions in the order in which these came, refused late
      or not. */
  lemma {:induction false} EntriesInOrder(s: State, oriTxId: int, txs: seq<Tx>, packs: Packer)
    ensures Hold(BlockOf(s, oriTxId, txs, packs).books, EntriesOver(s, txs))
  {
    if txs != [] {
      var front, tx := txs[..|txs| - 1], txs[|txs| - 1];
      var b, es := BlockOf(s, oriTxId, front, packs), EntriesOver(s, front);
      EntriesInOrder(s, oriTxId, front, packs);
      EntriesGrow(b, RunTxs(s, front), tx, packs, es);
      assert BlockOf(s, oriTxId, txs, packs) == Extend(b, RunTxs(s, front), tx, packs);
      assert EntriesOver(s, txs) == es + EntriesAt(RunTxs(s, front), tx);
    }
  }

  /** How a transaction ends, and that one that is no transaction or fails a lookup has not
      changed what is stored. */
  lemma {:induction false} RefusalsRead(s: State, tx: Tx, latestTxId: int, packs: Packer)
    requires WellFormed(s)
    ensures var r, error := tx.request, TxRefusal(s, tx, latestTxId, packs);
      && (r.Cancel? ==> error == Some(UnknownRequestType))
      && (!r.Cancel? && Refused(s, r).Some? ==> error == Some(Rejected(Refused(s, r).value)))
      && (!r.Cancel? && Refused(s, r).None? ==> error == LateRefusal(s, tx, latestTxId, packs))
      && After(s, tx) == if r.Cancel? || Refused(s, r).Some? then s else Do(s, r).state
  {
    RefusedExactly(s, tx.request);
  }

  // ---------- What can be encoded ----------

  /** A packer that takes a number that is not negative exactly when it has so many bits. */
  ghost predicate TakesUnsigned(packs: Packer) {
    forall bits: nat, v: nat :: packs(bits, v) <==> v < Pow(2, bits)
  }

  /** The amount that a request's chunks hold in the decimal code. */
  function DecimalAmount(tx: Tx, makerBuyAmt: int): int {
    match tx.request
    case Place(_, _, _, amount, _, _, _) => amount
    case Cancel(_, _) => tx.amount
    case Exchange(_, _, _) => makerBuyAmt
    case _ => 0
  }

  /** A number as digits that do not end in 0, and a count of zeros after them. */
  predicate WrittenAs(n: int, m: nat, e: nat) {
    n == m * Pow(10, e) && if n == 0 then m == 0 && e == 0 else m % 10 != 0
  }

  lemma {:induction false} DecimalCodeIs(n: int, m: nat, e: nat)
    requires WrittenAs(n, m, e)
    ensures TxAmount(n) == m + e * Pow(2, 35)
  {
    if m != 0 { DecimalCodeOf(m, e, 35); }
  }

  lemma {:induction false} DecimalPacks(n: int, m: nat, e: nat, packs: Packer)
    requires TakesUnsigned(packs) && WrittenAs(n, m, e)
    ensures packs(40, TxAmount(n)) <==> m + e * Pow(2, 35) < Pow(2, 40)
  {
    DecimalCodeIs(n, m, e);
    MulMonotone(0, e, Pow(2, 35));
  }

  /** Which requests can be encoded, every amount not being negative: the widths of the fields,
      and of the decimal amount its digits and 2^35 for each zero below 2^40 together. */
  lemma {:induction false} EncodableExactly(tx: Tx, txOffset: nat, makerBuyAmt: nat, m: nat, e: nat, packs: Packer)
    requires TakesUnsigned(packs) && tx.amount >= 0 && tx.arg1 >= 0
    requires tx.request.Deposit? || tx.request.Withdraw? ==> tx.request.amount >= 0
    requires WrittenAs(DecimalAmount(tx, makerBuyAmt), m, e)
    ensures var short := m + e * Pow(2, 35) < Pow(2, 40);
      EncodesChunks(tx, txOffset, makerBuyAmt, packs)
      <==> match tx.request {
             case Register(a, _, t) =>
               a < Pow(2, 32) && t < Pow(2, 16) && tx.amount < Pow(2, 128) && tx.arg1 < Pow(2, 160)
             case Deposit(a, t, amount) => a < Pow(2, 32) && t < Pow(2, 16) && amount < Pow(2, 128)
             case Withdraw(a, t, amount) => a < Pow(2, 32) && t < Pow(2, 16) && amount < Pow(2, 128)
             case Place(_, a, t, _, _, _, _) => a < Pow(2, 32) && t < Pow(2, 16) && short
             case Cancel(a, _) => a < Pow(2, 32) && tx.tokenId < Pow(2, 16) && short
             case Start(_) => 0 < txOffset < Pow(2, 32)
             case Exchange(_, _, _) => 0 < txOffset < Pow(2, 32) && makerBuyAmt > 0 && short
             case _ => true
           }
  {
    DecimalPacks(DecimalAmount(tx, makerBuyAmt), m, e, packs);
  }

  /** How a transaction past its lookups ends, every amount not being negative and no order
      ahead of the log: not encoded for what its fields cannot hold, with an order counted back
      from the latest transaction; otherwise refused only if a trading request lacks its key. */
  lemma {:induction false} EndsLateExactly(s: State, tx: Tx, latestTxId: int, m: nat, e: nat, packs: Packer)
    requires TakesUnsigned(packs) && Do(s, tx.request).Done? && tx.amount >= 0 && tx.arg1 >= 0
    requires tx.request.Deposit? || tx.request.Withdraw? ==> tx.request.amount >= 0
    requires tx.request.Start? || tx.request.Exchange? ==> s.orders[tx.request.orderLeafId].txId <= latestTxId
    requires tx.request.Exchange? ==> s.orders[tx.request.orderLeafId].buyAmt >= 0
    requires WrittenAs(
               DecimalAmount(tx, if tx.request.Exchange? then s.orders[tx.request.orderLeafId].buyAmt else 0), m, e)
    ensures var short := m + e * Pow(2, 35) < Pow(2, 40);
      var encoded := match tx.request {
          case Register(a, _, t) =>
            a < Pow(2, 32) && t < Pow(2, 16) && tx.amount < Pow(2, 128) && tx.arg1 < Pow(2, 160)
          case Deposit(a, t, amount) => a < Pow(2, 32) && t < Pow(2, 16) && amount < Pow(2, 128)
          case Withdraw(a, t, amount) => a < Pow(2, 32) && t < Pow(2, 16) && amount < Pow(2, 128)
          case Place(_, a, t, _, _, _, _) => a < Pow(2, 32) && t < Pow(2, 16) && short
          case Cancel(a, _) => a < Pow(2, 32) && tx.tokenId < Pow(2, 16) && short
          case Start(id) => s.orders[id].txId < latestTxId < s.orders[id].txId + Pow(2, 32)
          case Exchange(id, _, _) =>
            s.orders[id].txId < latestTxId < s.orders[id].txId + Pow(2, 32) && s.orders[id].buyAmt > 0 && short
          case _ => true
        };
      var keyless := tx.request.Register? || tx.request.Deposit? || tx.request.Noop?;
      LateRefusal(s, tx, latestTxId, packs)
        == if !encoded then Some(NotEncoded) else if keyless || tx.keyFound then None else Some(KeyNotFound)
  {
    var order := tx.request.Start? || tx.request.Exchange?;
    var offset := if order then latestTxId - s.orders[tx.request.orderLeafId].txId else 0;
    var amount := if tx.request.Exchange? then s.orders[tx.request.orderLeafId].buyAmt else 0;
    EncodableExactly(tx, offset, amount, m, e, packs);
  }

  /** An order for an amount with 32 zeros at its end is placed, and then refused. */
  lemma {:induction false} RoundOrderRefusedLate(s: State, tx: Tx, latestTxId: int, m: nat, e: nat, packs: Packer)
    requires TakesUnsigned(packs) && tx.request.Place? && Do(s, tx.request).Done?
    requires WrittenAs(tx.request.amount, m, e) && e >= 32
    ensures RefusedLate(s, tx, latestTxId, packs)
  {
    DecimalPacks(tx.request.amount, m, e, packs);
    MulMonotone(32, e, Pow(2, 35));
    PowAdd(2, 5, 35);
    assert Pow(2, 5) == 32;
  }
}
