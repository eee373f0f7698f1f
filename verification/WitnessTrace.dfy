/** The witness trace of an open block: every leaf and root before and after it is touched, the
    log of requests, and the block's root flows, as pure functions of what is requested. */
module WitnessTrace {
  import opened Wrappers
  import opened AmountCodes
  import opened Settlement
  import opened LockLedger

  /** One touched leaf with the roots and contents around the touch. */
  datatype Entry<L> = Entry(id: nat, before: Root, after: Root, oriLeaf: L, newLeaf: L)

  /** The recorded arrays of one tree, grown side by side. */
  datatype Trace<L> = Trace(leafId: seq<seq<nat>>, oriLeaf: seq<L>, newLeaf: seq<L>, rootFlow: seq<seq<Root>>)

  /** Ids are grouped in pairs: an id joins the last group if that holds one id only. */
  function PushLeafId(ids: seq<seq<nat>>, id: nat): seq<seq<nat>> {
    if ids != [] && |ids[|ids| - 1]| == 1 then ids[..|ids| - 1] + [ids[|ids| - 1] + [id]] else ids + [[id]]
  }

  function Opened<L>(t: Trace<L>, id: nat, root: Root, leaf: L): Trace<L> {
    t.(leafId := PushLeafId(t.leafId, id), oriLeaf := t.oriLeaf + [leaf], rootFlow := t.rootFlow + [[root]])
  }

  function Closed<L>(t: Trace<L>, root: Root, leaf: L): Trace<L>
    requires t.rootFlow != []
  {
    var idx := |t.rootFlow| - 1;
    t.(newLeaf := t.newLeaf + [leaf], rootFlow := t.rootFlow[..idx] + [t.rootFlow[idx] + [root]])
  }

  function Record<L>(t: Trace<L>, e: Entry<L>): Trace<L> {
    Closed(Opened(t, e.id, e.before, e.oriLeaf), e.after, e.newLeaf)
  }

  /** Every leaf has its id in a full pair, one content before and one after, and one root
      before and one after. */
  ghost predicate Whole<L>(t: Trace<L>) {
    && |t.oriLeaf| == |t.newLeaf| == |t.rootFlow| == 2 * |t.leafId|
    && (forall i :: 0 <= i < |t.leafId| ==> |t.leafId[i]| == 2)
    && (forall i :: 0 <= i < |t.rootFlow| ==> |t.rootFlow[i]| == 2)
  }

  function AppendPair<L>(t: Trace<L>, x: Entry<L>, y: Entry<L>): Trace<L> {
    Trace(t.leafId + [[x.id, y.id]], t.oriLeaf + [x.oriLeaf, y.oriLeaf], t.newLeaf + [x.newLeaf, y.newLeaf],
          t.rootFlow + [[x.before, x.after], [y.before, y.after]])
  }

  lemma TwoRecordsArePair<L>(t: Trace<L>, x: Entry<L>, y: Entry<L>)
    requires Whole(t)
    ensures Record(Record(t, x), y) == AppendPair(t, x, y)
    ensures Whole(AppendPair(t, x, y))
  {
    RecordFlow(t, x);
    var t1 := Record(t, x);
    RecordFlow(t1, y);
    assert t.leafId != [] ==> |t.leafId[|t.leafId| - 1]| == 2;
    assert t1.leafId == t.leafId + [[x.id]];
    assert t1.leafId[..|t1.leafId| - 1] == t.leafId;
    assert [x.id] + [y.id] == [x.id, y.id];
  }

  lemma RecordFlow<L>(t: Trace<L>, x: Entry<L>)
    ensures Record(t, x).rootFlow == t.rootFlow + [[x.before, x.after]]
  {
    var flow := t.rootFlow + [[x.before]];
    assert flow[..|flow| - 1] == t.rootFlow;
    assert [x.before] + [x.after] == [x.before, x.after];
  }

  /** Order leaves are recorded one by one. */
  function AppendOne<L>(t: Trace<L>, x: Entry<L>): Trace<L> {
    Trace(t.leafId + [[x.id]], t.oriLeaf + [x.oriLeaf], t.newLeaf + [x.newLeaf], t.rootFlow + [[x.before, x.after]])
  }

  // ---------- What is seen of the leaves ----------

  /** Before an update, an absent account reads as an empty leaf over its token tree. */
  function AccountBefore(s: State, a: nat): AccountLeaf {
    if GetAccount(s, a).Some? then AccountLeafOf(s, a) else AccountLeaf(0, 0, TokenRootOf(s, a))
  }

  function TokenBefore(s: State, a: nat, t: nat): TokenLeaf {
    if GetAccount(s, a).Some? then Balance(s, a, t) else TokenLeaf(0, 0)
  }

  function TokenRootBefore(s: State, a: nat): Root {
    if GetAccount(s, a).Some? then TokenRootOf(s, a) else 0
  }

  function OrderSeen(s: State, id: nat): OrderLeaf {
    if id in s.orders then s.orders[id] else EmptyLeaf(0)
  }

  function AccountEntry(s: State, s': State, a: nat): Entry<AccountLeaf> {
    Entry(a, s.accountRoot, s'.accountRoot, AccountBefore(s, a), AccountLeafOf(s', a))
  }

  function TokenEntry(s: State, s': State, a: nat, t: nat): Entry<TokenLeaf> {
    Entry(t, TokenRootBefore(s, a), TokenRootOf(s', a), TokenBefore(s, a, t), Balance(s', a, t))
  }

  function OrderEntry(s: State, s': State, id: nat): Entry<OrderLeaf> {
    Entry(id, s.orderRoot, s'.orderRoot, OrderSeen(s, id), OrderSeen(s', id))
  }

  datatype Entries = Entries(account1: Entry<AccountLeaf>, account2: Entry<AccountLeaf>,
                             token1: Entry<TokenLeaf>, token2: Entry<TokenLeaf>, order: Entry<OrderLeaf>)

  function BalanceEntries(s: State, s': State, a: nat, t: nat, id: nat): Entries {
    Entries(AccountEntry(s, s', a), AccountEntry(s', s', a),
            TokenEntry(s, s', a, t), TokenEntry(s', s', a, t), OrderEntry(s, s', id))
  }

  function TradeEntries(s: State, s': State, o: OrderLeaf, buy: int, id: nat): Entries {
    var credited := Credit(s, o, buy);
    Entries(AccountEntry(s, s', o.sender), AccountEntry(s', s', o.sender),
            TokenEntry(s, credited, o.sender, o.buyTokenId), TokenEntry(credited, s', o.sender, o.sellTokenId),
            OrderEntry(s, s', id))
  }

  /** The entries a successful request leaves behind. */
  function EntriesOf(s: State, r: Request): Entries
    requires Do(s, r).Done?
  {
    var s' := Do(s, r).state;
    match r
    case Register(a, _, t) => BalanceEntries(s, s', a, t, 0)
    case Deposit(a, t, _) => BalanceEntries(s, s', a, t, 0)
    case Withdraw(a, t, _) => BalanceEntries(s, s', a, t, 0)
    case Place(_, a, t, _, _, _, _) => BalanceEntries(s, s', a, t, s.currentOrderId)
    case Start(id) => BalanceEntries(s, s', s.orders[id].sender, s.orders[id].sellTokenId, id)
    case Exchange(id, _, buy) => TradeEntries(s, s', s.orders[id], buy, id)
    case End(id, _, buy) => TradeEntries(s, s', s.held.value, buy, id)
    case Cancel(a, id) => BalanceEntries(s, s', a, s.orders[id].sellTokenId, s.orders[id].orderLeafId)
    case Noop => BalanceEntries(s, s', 0, 0, 0)
  }

  // ---------- The last steps of a request ----------

  /** A transaction row: the request, the columns that only its last steps read, and whether
      the public key row that they look up is there. */
  datatype Tx = Tx(request: Request, keyFound: bool, tokenId: nat, amount: int, arg1: int)

  /** Whether the packing library takes a value into so many bits. */
  type Packer = (nat, int) -> bool

  /** Why a transaction was refused. */
  datatype TxError = UnknownRequestType | Rejected(error: Error) | NotEncoded | KeyNotFound

  const ZEROS_AT: nat := 35

  function TxAmount(amount: int): int {
    CodeV3(amount, ZEROS_AT)
  }

  /** Whether the chunks of a request can be encoded: an offset or a maker's amount of 0 counts
      as missing, and every value has to be taken by the packer. */
  predicate EncodesChunks(tx: Tx, txOffset: int, makerBuyAmt: int, packs: Packer) {
    match tx.request
    case Register(a, _, t) => packs(32, a) && packs(16, t) && packs(128, tx.amount) && packs(160, tx.arg1)
    case Deposit(a, t, amount) => packs(32, a) && packs(16, t) && packs(128, amount)
    case Withdraw(a, t, amount) => packs(32, a) && packs(16, t) && packs(128, amount)
    case Place(_, a, t, amount, _, _, _) => packs(32, a) && packs(16, t) && packs(40, TxAmount(amount))
    case Start(_) => txOffset != 0 && packs(32, txOffset)
    case Exchange(_, _, _) =>
      txOffset != 0 && makerBuyAmt != 0 && packs(32, txOffset) && packs(40, TxAmount(makerBuyAmt))
    case Cancel(a, _) => packs(32, a) && packs(16, tx.tokenId) && packs(40, TxAmount(tx.amount))
    case End(_, _, _) => true
    case Noop => true
  }

  predicate NeedsKey(r: Request) {
    !r.Register? && !r.Deposit? && !r.Noop?
  }

  /** Encoding and the key lookup come after every update and every record. */
  function LateSteps(tx: Tx, txOffset: int, makerBuyAmt: int, packs: Packer): Option<TxError> {
    if !EncodesChunks(tx, txOffset, makerBuyAmt, packs) then Some(NotEncoded)
    else if NeedsKey(tx.request) && !tx.keyFound then Some(KeyNotFound)
    else None
  }

  /** How far back the order's transaction lies; 0 for requests that do not say it. */
  function TxOffset(s: State, r: Request, latestTxId: int): int
    requires Do(s, r).Done?
  {
    if r.Start? || r.Exchange? then latestTxId - s.orders[r.orderLeafId].txId else 0
  }

  function MakerBuyAmt(s: State, r: Request): int
    requires Do(s, r).Done?
  {
    if r.Exchange? then s.orders[r.orderLeafId].buyAmt else 0
  }

  function LateRefusal(s: State, tx: Tx, latestTxId: int, packs: Packer): Option<TxError>
    requires Do(s, tx.request).Done?
  {
    LateSteps(tx, TxOffset(s, tx.request, latestTxId), MakerBuyAmt(s, tx.request), packs)
  }

  function Refusal(s: State, tx: Tx, latestTxId: int, packs: Packer): Option<TxError> {
    var result := Do(s, tx.request);
    if result.Failed? then Some(Rejected(result.error)) else LateRefusal(s, tx, latestTxId, packs)
  }

  /** There is no case for cancelling. */
  function TxRefusal(s: State, tx: Tx, latestTxId: int, packs: Packer): Option<TxError> {
    if tx.request.Cancel? then Some(UnknownRequestType) else Refusal(s, tx, latestTxId, packs)
  }

  // ---------- The open block ----------

  /** The records and the log of the open block. */
  datatype Books =
    Books(account: Trace<AccountLeaf>, token: Trace<TokenLeaf>, order: Trace<OrderLeaf>, logs: seq<Request>)

  const EMPTY_ACCOUNT_TRACE: Trace<AccountLeaf> := Trace([], [], [], [])
  const EMPTY_TOKEN_TRACE: Trace<TokenLeaf> := Trace([], [], [], [])
  const EMPTY_ORDER_TRACE: Trace<OrderLeaf> := Trace([], [], [], [])
  const EMPTY_BOOKS := Books(EMPTY_ACCOUNT_TRACE, EMPTY_TOKEN_TRACE, EMPTY_ORDER_TRACE, [])

  /** Two more account and two more token entries and one more order entry. */
  function Touched(b: Books, e: Entries): Books {
    b.(account := AppendPair(b.account, e.account1, e.account2),
       token := AppendPair(b.token, e.token1, e.token2),
       order := AppendOne(b.order, e.order))
  }

  function Logged(b: Books, r: Request): Books {
    b.(logs := b.logs + [r])
  }

  /** A request that gets past its lookups is recorded, and logged unless it is refused late. */
  function BooksAfter(b: Books, s: State, tx: Tx, latestTxId: int, packs: Packer): Books {
    if Do(s, tx.request).Failed? then b
    else
      var touched := Touched(b, EntriesOf(s, tx.request));
      if LateRefusal(s, tx, latestTxId, packs).None? then Logged(touched, tx.request) else touched
  }

  /** Every entry is whole, and the traces stand side by side. */
  ghost predicate Shaped(b: Books) {
    && Whole(b.account) && Whole(b.token)
    && |b.account.rootFlow| == |b.token.rootFlow| == 2 * |b.order.rootFlow|
    && |b.order.leafId| == |b.order.oriLeaf| == |b.order.newLeaf| == |b.order.rootFlow|
  }

  lemma TouchedIsShaped(b: Books, e: Entries)
    requires Shaped(b)
    ensures Shaped(Touched(b, e))
  {
    TwoRecordsArePair(b.account, e.account1, e.account2);
    TwoRecordsArePair(b.token, e.token1, e.token2);
  }

  function OpenedOne<L>(t: Trace<L>, id: nat, root: Root, leaf: L): Trace<L> {
    t.(leafId := t.leafId + [[id]], oriLeaf := t.oriLeaf + [leaf], rootFlow := t.rootFlow + [[root]])
  }

  /** Opening and closing an order entry adds that entry and nothing else. */
  lemma OneRecordIsOne<L>(t: Trace<L>, x: Entry<L>)
    ensures Closed(OpenedOne(t, x.id, x.before, x.oriLeaf), x.after, x.newLeaf) == AppendOne(t, x)
  {
    RecordFlow(t, x);
  }

  /** The open block: its books, the roots at its beginning and after each logged request, and
      the transactions before it. */
  datatype Block = Block(books: Books, accountRoots: seq<Root>, orderRoots: seq<Root>, oriTxId: int)

  function OpenBlock(s: State, oriTxId: int): Block {
    Block(EMPTY_BOOKS, [s.accountRoot], [s.orderRoot], oriTxId)
  }

  function LatestTxId(b: Block): int {
    b.oriTxId + |b.books.logs|
  }

  /** A transaction's effect on the stored state; cancelling is not a transaction. */
  function After(s: State, tx: Tx): State {
    if tx.request.Cancel? then s else Do(s, tx.request).state
  }

  function Extend(b: Block, s: State, tx: Tx, packs: Packer): Block {
    if tx.request.Cancel? then b
    else
      var extended := b.(books := BooksAfter(b.books, s, tx, LatestTxId(b), packs));
      if Refusal(s, tx, LatestTxId(b), packs).Some? then extended
      else extended.(accountRoots := b.accountRoots + [After(s, tx).accountRoot],
                     orderRoots := b.orderRoots + [After(s, tx).orderRoot])
  }

  lemma ShapedAfter(b: Block, s: State, tx: Tx, packs: Packer)
    requires Shaped(b.books)
    ensures Shaped(Extend(b, s, tx, packs).books)
  {
    if !tx.request.Cancel? && Do(s, tx.request).Done? { TouchedIsShaped(b.books, EntriesOf(s, tx.request)); }
  }

  /** What makes a transaction fail after it has been recorded, told before it is run. */
  predicate RefusedLate(s: State, tx: Tx, latestTxId: int, packs: Packer) {
    !tx.request.Cancel? && Do(s, tx.request).Done? && LateRefusal(s, tx, latestTxId, packs).Some?
  }

  // ---------- Chains of roots ----------

  /** Every root follows the one before it, from the first of the block to the current one. */
  ghost predicate Chain(first: Root, flow: seq<seq<Root>>, last: Root) {
    && (forall i :: 0 <= i < |flow| ==> |flow[i]| == 2)
    && (forall i :: 0 < i < |flow| ==> flow[i - 1][1] == flow[i][0])
    && (if flow == [] then first == last else flow[0][0] == first && flow[|flow| - 1][1] == last)
  }

  lemma ChainGrows(first: Root, flow: seq<seq<Root>>, last: Root, next: Root)
    requires Chain(first, flow, last)
    ensures Chain(first, flow + [[last, next]], next)
  {
  }

  /** After n logged requests, each with two account entries, the block's own flow lists the
      root before the first request and after each. */
  ghost predicate AccountFlow(roots: seq<Root>, flow: seq<seq<Root>>, n: nat) {
    && |roots| == n + 1 && |flow| == 2 * n
    && (forall i :: 0 <= i < |flow| ==> |flow[i]| == 2)
    && (forall i :: 0 <= i < n ==> flow[2 * i][0] == roots[i] && flow[2 * i + 1][1] == roots[i + 1])
  }

  /** The same for the order tree, with one entry per request. */
  ghost predicate OrderFlow(roots: seq<Root>, flow: seq<seq<Root>>, n: nat) {
    && |roots| == n + 1 && |flow| == n
    && (forall i :: 0 <= i < n ==> flow[i] == [roots[i], roots[i + 1]])
  }

  lemma AccountFlowGrows(roots: seq<Root>, flow: seq<seq<Root>>, n: nat, mid: Root, last: Root)
    requires AccountFlow(roots, flow, n)
    ensures AccountFlow(roots + [last], flow + [[roots[n], mid], [mid, last]], n + 1)
  {
  }

  lemma OrderFlowGrows(roots: seq<Root>, flow: seq<seq<Root>>, n: nat, last: Root)
    requires OrderFlow(roots, flow, n)
    ensures OrderFlow(roots + [last], flow + [[roots[n], last]], n + 1)
  {
  }

  /** Whole entries, side by side, chained from the block's first root to the current one. */
  ghost predicate Sound(b: Block, s: State) {
    && Shaped(b.books) && b.accountRoots != [] && b.orderRoots != []
    && Chain(b.accountRoots[0], b.books.account.rootFlow, s.accountRoot)
    && Chain(b.orderRoots[0], b.books.order.rootFlow, s.orderRoot)
  }

  /** Beyond that, the entries are in step with the log and with the block's root flows: two
      account and two token entries and one order entry per logged request. */
  ghost predicate Traced(b: Block, s: State) {
    var n := |b.books.logs|;
    && Sound(b, s)
    && AccountFlow(b.accountRoots, b.books.account.rootFlow, n) && b.accountRoots[n] == s.accountRoot
    && OrderFlow(b.orderRoots, b.books.order.rootFlow, n) && b.orderRoots[n] == s.orderRoot
  }

  /** A request's entries chain from the roots before it to the roots after it. */
  lemma EntriesChain(s: State, r: Request)
    requires Do(s, r).Done?
    ensures var e, s' := EntriesOf(s, r), Do(s, r).state;
      && e.account1.before == s.accountRoot && e.account1.after == s'.accountRoot
      && e.account2.before == s'.accountRoot && e.account2.after == s'.accountRoot
      && e.order.before == s.orderRoot && e.order.after == s'.orderRoot
  {
  }

  /** A request refused by its lookups has not touched any tree. */
  lemma EarlyRefusalTouchesNothing(s: State, r: Request)
    requires WellFormed(s) && Do(s, r).Failed?
    ensures Do(s, r).state.accountRoot == s.accountRoot && Do(s, r).state.orderRoot == s.orderRoot
    ensures Do(s, r).state.tokens == s.tokens && Do(s, r).state.orders == s.orders
  {
    assert (r.Exchange? || r.Cancel?) && r.orderLeafId in s.orders ==> GoodLeaf(s, r.orderLeafId);
  }

  /** The same for the two legs of a trade. */
  lemma TradeBooks(b: Books, s: State, s': State, o: OrderLeaf, sell: int, buy: int, id: nat)
    requires Shaped(b)
    requires var mid := Settle(s, o, sell, buy);
      mid.accounts == s'.accounts && mid.tokens == s'.tokens && mid.accountRoot == s'.accountRoot
        && mid.tokenRoots == s'.tokenRoots
    ensures var e, credited, mid := TradeEntries(s, s', o, buy, id), Credit(s, o, buy), Settle(s, o, sell, buy);
      && AppendPair(b.account, e.account1, e.account2)
           == Record(Record(b.account, AccountEntry(s, mid, o.sender)), AccountEntry(mid, mid, o.sender))
      && AppendPair(b.token, e.token1, e.token2)
           == Record(Record(b.token, TokenEntry(s, credited, o.sender, o.buyTokenId)),
             TokenEntry(credited, mid, o.sender, o.sellTokenId))
      && e.order == OrderEntry(mid, s', id)
  {
    var e := TradeEntries(s, s', o, buy, id);
    TwoRecordsArePair(b.account, e.account1, e.account2);
    TwoRecordsArePair(b.token, e.token1, e.token2);
  }

  /** Entries that put all changes of balances and nonce into the first account and token
      entry, with an order entry beside them, make up the entries of the whole request. */
  lemma BalanceBooks(b: Books, s: State, mid: State, s': State, a: nat, t: nat, id: nat)
    requires Shaped(b)
    requires mid.accounts == s'.accounts && mid.tokens == s'.tokens
    requires mid.accountRoot == s'.accountRoot && mid.tokenRoots == s'.tokenRoots
    requires mid.orders == s.orders && mid.orderRoot == s.orderRoot
    ensures var e := BalanceEntries(s, s', a, t, id);
      && AppendPair(b.account, e.account1, e.account2)
           == Record(Record(b.account, AccountEntry(s, mid, a)), AccountEntry(mid, mid, a))
      && AppendPair(b.token, e.token1, e.token2)
           == Record(Record(b.token, TokenEntry(s, mid, a, t)), TokenEntry(mid, mid, a, t))
      && e.order == OrderEntry(mid, s', id)
  {
    var e := BalanceEntries(s, s', a, t, id);
    TwoRecordsArePair(b.account, e.account1, e.account2);
    TwoRecordsArePair(b.token, e.token1, e.token2);
  }

  // ---------- Transactions ----------

  lemma SoundKept(b: Block, s: State, tx: Tx, packs: Packer)
    requires WellFormed(s) && Sound(b, s)
    ensures Sound(Extend(b, s, tx, packs), After(s, tx))
  {
    var r := tx.request;
    if !r.Cancel? && Do(s, r).Failed? {
      EarlyRefusalTouchesNothing(s, r);
    } else if !r.Cancel? {
      var s' := Do(s, r).state;
      var flow := b.books.account.rootFlow;
      EntriesChain(s, r);
      TouchedIsShaped(b.books, EntriesOf(s, r));
      ChainGrows(b.accountRoots[0], flow, s.accountRoot, s'.accountRoot);
      ChainGrows(b.accountRoots[0], flow + [[s.accountRoot, s'.accountRoot]], s'.accountRoot, s'.accountRoot);
      ChainGrows(b.orderRoots[0], b.books.order.rootFlow, s.orderRoot, s'.orderRoot);
      assert flow + [[s.accountRoot, s'.accountRoot]] + [[s'.accountRoot, s'.accountRoot]]
          == flow + [[s.accountRoot, s'.accountRoot], [s'.accountRoot, s'.accountRoot]];
    }
  }

  /** A transaction leaves the trace in step exactly when it is not refused after its records
      were made. */
  lemma TracedKeptExactly(b: Block, s: State, tx: Tx, packs: Packer)
    requires WellFormed(s) && Traced(b, s)
    ensures Traced(Extend(b, s, tx, packs), After(s, tx)) <==> !RefusedLate(s, tx, LatestTxId(b), packs)
  {
    var r, n := tx.request, |b.books.logs|;
    SoundKept(b, s, tx, packs);
    if !r.Cancel? && Do(s, r).Failed? {
      EarlyRefusalTouchesNothing(s, r);
    } else if !r.Cancel? && !RefusedLate(s, tx, LatestTxId(b), packs) {
      var s' := Do(s, r).state;
      EntriesChain(s, r);
      AccountFlowGrows(b.accountRoots, b.books.account.rootFlow, n, s'.accountRoot, s'.accountRoot);
      OrderFlowGrows(b.orderRoots, b.books.order.rootFlow, n, s'.orderRoot);
    }
  }

  lemma LateErrors(b: Block, s: State, tx: Tx, packs: Packer)
    requires WellFormed(s) && Traced(b, s)
    ensures var error := TxRefusal(s, tx, LatestTxId(b), packs);
      Traced(Extend(b, s, tx, packs), After(s, tx)) <==> error != Some(NotEncoded) && error != Some(KeyNotFound)
  {
    TracedKeptExactly(b, s, tx, packs);
  }

  /** What a transaction keeps, whether it is accepted or refused. */
  lemma {:induction false} TransactionKeeps(b: Block, s: State, tx: Tx, packs: Packer, b': Block, s': State,
                                            error: Option<TxError>)
    requires Shaped(b.books) && WellFormed(s)
    requires b' == Extend(b, s, tx, packs) && s' == After(s, tx) && error == TxRefusal(s, tx, LatestTxId(b), packs)
    ensures Shaped(b'.books) && (WellFormed(s') <==> KeepsAccounts(s, tx.request))
    ensures Traced(b, s) ==> (Traced(b', s') <==> error != Some(NotEncoded) && error != Some(KeyNotFound))
  {
    ShapedAfter(b, s, tx, packs);
    if !tx.request.Cancel? { WellFormedKept(s, tx.request); }
    if Traced(b, s) { LateErrors(b, s, tx, packs); }
  }

  function RunTxs(s: State, txs: seq<Tx>): State {
    if txs == [] then s else After(RunTxs(s, txs[..|txs| - 1]), txs[|txs| - 1])
  }

  function BlockOf(s: State, oriTxId: int, txs: seq<Tx>, packs: Packer): Block {
    if txs == [] then OpenBlock(s, oriTxId)
    else
      var front := txs[..|txs| - 1];
      Extend(BlockOf(s, oriTxId, front, packs), RunTxs(s, front), txs[|txs| - 1], packs)
  }

  function LateAt(s: State, oriTxId: int, txs: seq<Tx>, packs: Packer): nat
    requires txs != []
  {
    var front := txs[..|txs| - 1];
    if RefusedLate(RunTxs(s, front), txs[|txs| - 1], LatestTxId(BlockOf(s, oriTxId, front, packs)), packs) then 1 else 0
  }

  /** How many transactions of a block were refused late. */
  function LateOnes(s: State, oriTxId: int, txs: seq<Tx>, packs: Packer): nat {
    if txs == [] then 0 else LateOnes(s, oriTxId, txs[..|txs| - 1], packs) + LateAt(s, oriTxId, txs, packs)
  }

  /** No transaction makes a trading account count as absent. */
  ghost predicate AccountsKept(s: State, txs: seq<Tx>) {
    txs == [] || (AccountsKept(s, txs[..|txs| - 1])
                  && KeepsAccounts(RunTxs(s, txs[..|txs| - 1]), txs[|txs| - 1].request))
  }

  /** After every run of transactions of a block, refused ones included, the entries are whole
      and chained; one order entry too many stands for each late refusal; and the trace is in
      step with the log exactly when there was none. */
  lemma {:induction false} TraceOverRuns(s: State, oriTxId: int, txs: seq<Tx>, packs: Packer)
    requires WellFormed(s) && AccountsKept(s, txs)
    ensures var b, s', late := BlockOf(s, oriTxId, txs, packs), RunTxs(s, txs), LateOnes(s, oriTxId, txs, packs);
      && WellFormed(s') && Sound(b, s')
      && |b.books.order.rootFlow| == |b.books.logs| + late
      && (Traced(b, s') <==> late == 0)
  {
    if txs != [] {
      var front, tx := txs[..|txs| - 1], txs[|txs| - 1];
      TraceOverRuns(s, oriTxId, front, packs);
      var b, before := BlockOf(s, oriTxId, front, packs), RunTxs(s, front);
      if !tx.request.Cancel? { WellFormedKept(before, tx.request); }
      SoundKept(b, before, tx, packs);
      if LateOnes(s, oriTxId, front, packs) == 0 { TracedKeptExactly(b, before, tx, packs); }
    }
  }

  // ---------- Late refusals do occur ----------

  lemma {:induction false} OneMoreTx(s: State, oriTxId: int, front: seq<Tx>, tx: Tx, packs: Packer)
    ensures RunTxs(s, front + [tx]) == After(RunTxs(s, front), tx)
    ensures BlockOf(s, oriTxId, front + [tx], packs)
         == Extend(BlockOf(s, oriTxId, front, packs), RunTxs(s, front), tx, packs)
  {
    assert (front + [tx])[..|front|] == front;
  }

  lemma AcceptedIsLogged(b: Block, s: State, tx: Tx, packs: Packer)
    requires !tx.request.Cancel? && Refusal(s, tx, LatestTxId(b), packs).None?
    ensures var b' := Extend(b, s, tx, packs);
      && b'.oriTxId == b.oriTxId && |b'.books.logs| == |b.books.logs| + 1
      && |b'.books.order.rootFlow| == |b.books.order.rootFlow| + 1
  {
  }

  function Row(r: Request): Tx {
    Tx(r, true, 0, 0, 0)
  }

  predicate TakesAll(bits: nat, value: int) {
    true
  }

  const ONE: Tx := Row(Register(1, Some(7), 1))
  const TWO: Tx := Row(Deposit(1, 1, 100))

  function Three(buyAmt: int): Tx {
    Row(Place(3, 1, 1, 100, 0, 2, buyAmt))
  }

  /** An account, a deposit and an order on top: the block's first three transactions. */
  function FirstThree(buyAmt: int): seq<Tx> {
    [ONE] + [TWO] + [Three(buyAmt)]
  }

  function FirstOrder(buyAmt: int): OrderLeaf {
    OrderLeaf(2, 3, SECOND_LIMIT_ORDER, 1, 1, 0, 100, 2, buyAmt, 0, 0)
  }

  /** The state they lead to. */
  function Placed(buyAmt: int): State {
    State(map[1 := AccountLeaf(7, 1, 2)], map[(1, 1) := TokenLeaf(0, 100)],
          map[0 := EmptyLeaf(0), 2 := FirstOrder(buyAmt)], 3, None, 3, map[1 := 2], 1)
  }

  lemma DepositedIs()
    ensures After(After(Genesis(), ONE), TWO)
         == State(map[1 := AccountLeaf(7, 0, 1)], map[(1, 1) := TokenLeaf(100, 0)], map[0 := EmptyLeaf(0)], 2, None, 1,
           map[1 := 1], 0)
  {
    assert After(Genesis(), ONE)
      == State(map[1 := AccountLeaf(7, 0, 0)], map[], map[0 := EmptyLeaf(0)], 2, None, 0, map[], 0);
  }

  lemma PlacedIs(buyAmt: int)
    ensures After(After(After(Genesis(), ONE), TWO), Three(buyAmt)) == Placed(buyAmt)
  {
    DepositedIs();
  }

  lemma FirstThreeState(buyAmt: int)
    ensures RunTxs(Genesis(), [ONE]) == After(Genesis(), ONE)
    ensures RunTxs(Genesis(), [ONE] + [TWO]) == After(After(Genesis(), ONE), TWO)
    ensures RunTxs(Genesis(), FirstThree(buyAmt)) == Placed(buyAmt)
  {
    OneMoreTx(Genesis(), 0, [], ONE, TakesAll);
    assert [] + [ONE] == [ONE];
    OneMoreTx(Genesis(), 0, [ONE], TWO, TakesAll);
    OneMoreTx(Genesis(), 0, [ONE] + [TWO], Three(buyAmt), TakesAll);
    PlacedIs(buyAmt);
  }

  lemma {:induction false} LoggedNext(s0: State, front: seq<Tx>, tx: Tx, n: nat, packs: Packer)
    requires !tx.request.Cancel? && Refusal(RunTxs(s0, front), tx, n, packs).None?
    requires var b := BlockOf(s0, 0, front, packs); b.oriTxId == 0 && |b.books.logs| == |b.books.order.rootFlow| == n
    ensures var b := BlockOf(s0, 0, front + [tx], packs);
      b.oriTxId == 0 && |b.books.logs| == |b.books.order.rootFlow| == n + 1
  {
    OneMoreTx(s0, 0, front, tx, packs);
    AcceptedIsLogged(BlockOf(s0, 0, front, packs), RunTxs(s0, front), tx, packs);
  }

  /** From a fresh start they are all logged. */
  lemma FirstThreeBlock(buyAmt: int)
    ensures var b := BlockOf(Genesis(), 0, FirstThree(buyAmt), TakesAll);
      b.oriTxId == 0 && |b.books.logs| == |b.books.order.rootFlow| == 3
  {
    FirstThreeState(buyAmt);
    DepositedIs();
    assert [] + [ONE] == [ONE];
    LoggedNext(Genesis(), [], ONE, 0, TakesAll);
    LoggedNext(Genesis(), [ONE], TWO, 1, TakesAll);
    LoggedNext(Genesis(), [ONE] + [TWO], Three(buyAmt), 2, TakesAll);
  }

  lemma {:induction false} LateNext(s0: State, front: seq<Tx>, tx: Tx, n: nat, packs: Packer)
    requires RefusedLate(RunTxs(s0, front), tx, n, packs)
    requires var b := BlockOf(s0, 0, front, packs); b.oriTxId == 0 && |b.books.logs| == |b.books.order.rootFlow| == n
    ensures var b := BlockOf(s0, 0, front + [tx], packs);
      |b.books.logs| == n && |b.books.order.rootFlow| == n + 1 && !Traced(b, RunTxs(s0, front + [tx]))
  {
    OneMoreTx(s0, 0, front, tx, packs);
  }

  lemma LateFourth(buyAmt: int, tx: Tx)
    requires RefusedLate(Placed(buyAmt), tx, 3, TakesAll)
    ensures RunTxs(Genesis(), FirstThree(buyAmt) + [tx]) == After(Placed(buyAmt), tx)
    ensures var b := BlockOf(Genesis(), 0, FirstThree(buyAmt) + [tx], TakesAll);
      |b.books.logs| == 3 && |b.books.order.rootFlow| == 4 && !Traced(b, After(Placed(buyAmt), tx))
  {
    FirstThreeState(buyAmt);
    FirstThreeBlock(buyAmt);
    OneMoreTx(Genesis(), 0, FirstThree(buyAmt), tx, TakesAll);
    LateNext(Genesis(), FirstThree(buyAmt), tx, 3, TakesAll);
  }

  /** Starting the block's third transaction as its fourth is refused for an offset of 0, when
      the order has already left the tree; the trace is out of step. */
  lemma StartRefusedLate()
    ensures var txs := FirstThree(50) + [Row(Start(2))];
      var s, b := RunTxs(Genesis(), txs), BlockOf(Genesis(), 0, txs, TakesAll);
      && RefusedLate(Placed(50), Row(Start(2)), 3, TakesAll)
      && GetObsOrder(s, 2) == Some(EmptyLeaf(2)) && s.held == Some(FirstOrder(50))
      && |b.books.logs| == 3 && |b.books.order.rootFlow| == 4 && !Traced(b, s)
  {
    LateFourth(50, Row(Start(2)));
  }

  /** So is filling a maker, when its funds have already been taken. */
  lemma ExchangeRefusedLate()
    ensures var txs := FirstThree(0) + [Row(Exchange(2, 10, 0))];
      var s, b := RunTxs(Genesis(), txs), BlockOf(Genesis(), 0, txs, TakesAll);
      && RefusedLate(Placed(0), Row(Exchange(2, 10, 0)), 3, TakesAll)
      && Balance(s, 1, 1) == TokenLeaf(0, 90)
      && GetObsOrder(s, 2) == Some(FirstOrder(0).(accumulatedSellAmt := 10))
      && |b.books.logs| == 3 && |b.books.order.rootFlow| == 4 && !Traced(b, s)
  {
    LateFourth(0, Row(Exchange(2, 10, 0)));
  }
}
