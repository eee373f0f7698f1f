/** How a sealed block reaches its proof: the producer hands block numbers to the prover's
    queue behind a cursor, and the prover takes a number off the queue, proves the lowest
    executed block it finds and marks the block the number names. */
module BlockPipeline {
  import opened Wrappers

  datatype BlockStatus = PROCESSING | L2EXECUTED | L2CONFIRMED | L1CONFIRMED

  /** `proof` names the block whose input the stored proof is about. */
  datatype Block = Block(blockNumber: nat, blockStatus: BlockStatus, rawData: bool, proof: Option<nat>)

  /** The block table in the order of its key, the two cursors, the jobs waiting for the prover
      and every job ever handed to the operator. */
  datatype State = State(
    table: seq<Block>, currentPendingBlock: nat, currentProvedBlock: nat,
    proverQueue: seq<nat>, operatorJobs: seq<nat>)

  datatype Event =
    | Open(gap: nat)
    | Seal(blockNumber: nat, rawData: bool)
    | DispatchPending
    | DispatchProved
    | Process(proves: bool)
    | Restart

  // ---------- Queries ----------

  /** The numbers of the blocks that satisfy a condition, in key order. */
  function Where(t: seq<Block>, f: Block -> bool): seq<nat> {
    if t == [] then []
    else if f(t[0]) then [t[0].blockNumber] + Where(t[1..], f)
    else Where(t[1..], f)
  }

  function Above(st: BlockStatus, lo: nat): Block -> bool {
    (b: Block) => b.blockStatus == st && b.blockNumber > lo
  }

  function Within(st: BlockStatus, hi: nat): Block -> bool {
    (b: Block) => b.blockStatus == st && b.blockNumber <= hi
  }

  function Lowest(t: seq<Block>, st: BlockStatus): Option<Block> {
    if t == [] then None else if t[0].blockStatus == st then Some(t[0]) else Lowest(t[1..], st)
  }

  function Last(s: seq<nat>, otherwise: nat): nat {
    if s == [] then otherwise else s[|s| - 1]
  }

  function NextNumber(t: seq<Block>): nat {
    if t == [] then 1 else t[|t| - 1].blockNumber + 1
  }

  // ---------- Updates ----------

  function Sealed(b: Block, n: nat, rawData: bool): Block {
    if b.blockNumber == n && b.blockStatus == PROCESSING
    then b.(blockStatus := L2EXECUTED, rawData := rawData) else b
  }

  function Confirmed(b: Block, n: nat, proof: nat): Block {
    if b.blockNumber == n then b.(blockStatus := L2CONFIRMED, proof := Some(proof)) else b
  }

  function SealIn(t: seq<Block>, n: nat, rawData: bool): (u: seq<Block>)
    ensures |u| == |t| && forall i :: 0 <= i < |t| ==> u[i] == Sealed(t[i], n, rawData)
  {
    if t == [] then [] else [Sealed(t[0], n, rawData)] + SealIn(t[1..], n, rawData)
  }

  function ConfirmIn(t: seq<Block>, n: nat, proof: nat): (u: seq<Block>)
    ensures |u| == |t| && forall i :: 0 <= i < |t| ==> u[i] == Confirmed(t[i], n, proof)
  {
    if t == [] then [] else [Confirmed(t[0], n, proof)] + ConfirmIn(t[1..], n, proof)
  }

  // ---------- Steps ----------

  /** One job. It is off the queue however it ends: without a block, without raw data, with an
      error of the proving tool, or with the job's block marked. */
  function ProcessJob(s: State, proves: bool): State
    requires s.proverQueue != []
  {
    var rest := s.(proverQueue := s.proverQueue[1..]);
    match Lowest(s.table, L2EXECUTED)
    case None => rest
    case Some(current) =>
      if current.rawData && proves
      then rest.(table := ConfirmIn(s.table, s.proverQueue[0], current.blockNumber)) else rest
  }

  function Step(s: State, e: Event): State {
    match e
    case Open(gap) => s.(table := s.table + [Block(NextNumber(s.table) + gap, PROCESSING, false, None)])
    case Seal(n, rawData) => s.(table := SealIn(s.table, n, rawData))
    case DispatchPending =>
      var found := Where(s.table, Above(L2EXECUTED, s.currentPendingBlock));
      s.(proverQueue := s.proverQueue + found, currentPendingBlock := Last(found, s.currentPendingBlock))
    case DispatchProved =>
      var found := Where(s.table, Above(L2CONFIRMED, s.currentProvedBlock));
      s.(operatorJobs := s.operatorJobs + found, currentProvedBlock := Last(found, s.currentProvedBlock))
    case Process(proves) => if s.proverQueue == [] then s else ProcessJob(s, proves)
    case Restart => s.(currentPendingBlock := 0, currentProvedBlock := 0)
  }

  function Run(s: State, events: seq<Event>): State
    decreases |events|
  {
    if events == [] then s else Run(Step(s, events[0]), events[1..])
  }

  const INITIAL := State([], 0, 0, [], [])

  // ---------- The invariant ----------

  predicate Ascending(t: seq<Block>) {
    && (forall i :: 0 <= i < |t| ==> t[i].blockNumber > 0)
    && (forall i, j :: 0 <= i < j < |t| ==> t[i].blockNumber < t[j].blockNumber)
  }

  /** A confirmed block holds its own proof; an executed one has its data and lies above what
      was handed to the operator. */
  predicate RowFits(b: Block, s: State) {
    match b.blockStatus
    case PROCESSING => true
    case L2EXECUTED => b.rawData && b.blockNumber > s.currentProvedBlock
    case L2CONFIRMED => b.proof == Some(b.blockNumber)
    case L1CONFIRMED => false
  }

  predicate ProvedFirst(t: seq<Block>) {
    forall i, j :: 0 <= i < |t| && 0 <= j < |t| && t[i].blockStatus == L2CONFIRMED && t[j].blockStatus == L2EXECUTED
      ==> t[i].blockNumber < t[j].blockNumber
  }

  predicate NamesConfirmed(t: seq<Block>, n: nat) {
    exists i :: 0 <= i < |t| && t[i].blockNumber == n && t[i].blockStatus == L2CONFIRMED
  }

  predicate RowsFit(s: State) {
    && (forall i :: 0 <= i < |s.table| ==> RowFits(s.table[i], s))
    && ProvedFirst(s.table)
    && (s.currentProvedBlock == 0 || NamesConfirmed(s.table, s.currentProvedBlock))
  }

  /** The waiting jobs are the executed blocks up to the cursor, and the operator was handed
      the confirmed ones up to the other cursor, both in ascending order. */
  predicate Good(s: State) {
    && Ascending(s.table)
    && RowsFit(s)
    && s.proverQueue == Where(s.table, Within(L2EXECUTED, s.currentPendingBlock))
    && s.operatorJobs == Where(s.table, Within(L2CONFIRMED, s.currentProvedBlock))
  }

  predicate IsProcessing(t: seq<Block>, n: nat) {
    exists i :: 0 <= i < |t| && t[i].blockNumber == n && t[i].blockStatus == PROCESSING
  }

  predicate AboveConfirmed(t: seq<Block>, n: nat) {
    forall i :: 0 <= i < |t| && t[i].blockStatus == L2CONFIRMED ==> t[i].blockNumber < n
  }

  /** Which events the protocol withstands: a block is sealed with its data, above the cursor
      and above every confirmed block, a job that is taken succeeds, and the producer restarts
      only with no job waiting and none ever handed to the operator. */
  predicate Safe(s: State, e: Event) {
    match e
    case Seal(n, rawData) =>
      IsProcessing(s.table, n) ==> n > s.currentPendingBlock && rawData && AboveConfirmed(s.table, n)
    case Process(proves) => s.proverQueue != [] ==> proves
    case Restart => s.proverQueue == [] && s.operatorJobs == []
    case _ => true
  }

  predicate SafeRun(s: State, events: seq<Event>)
    decreases |events|
  {
    events == [] || (Safe(s, events[0]) && SafeRun(Step(s, events[0]), events[1..]))
  }

  // ---------- Facts about queries ----------

  predicate Rising(s: seq<nat>) {
    forall i, j :: 0 <= i < j < |s| ==> s[i] < s[j]
  }

  lemma {:induction false} WhereConcat(a: seq<Block>, b: seq<Block>, f: Block -> bool)
    ensures Where(a + b, f) == Where(a, f) + Where(b, f)
  {
    if a == [] {
      assert a + b == b;
    } else {
      assert (a + b)[1..] == a[1..] + b;
      WhereConcat(a[1..], b, f);
    }
  }

  lemma {:induction false} WhereSame(t: seq<Block>, f: Block -> bool, u: seq<Block>, g: Block -> bool)
    requires |t| == |u|
    requires forall i :: 0 <= i < |t| ==> t[i].blockNumber == u[i].blockNumber && f(t[i]) == g(u[i])
    ensures Where(t, f) == Where(u, g)
  {
    if t != [] { WhereSame(t[1..], f, u[1..], g); }
  }

  lemma {:induction false} WhereNone(t: seq<Block>, f: Block -> bool)
    requires forall i :: 0 <= i < |t| ==> !f(t[i])
    ensures Where(t, f) == []
  {
    if t != [] { WhereNone(t[1..], f); }
  }

  function Own(b: Block, f: Block -> bool): seq<nat> {
    if f(b) then [b.blockNumber] else []
  }

  /** What one row contributes to an answer, in its place. */
  lemma {:induction false} WhereAt(t: seq<Block>, f: Block -> bool, k: nat)
    requires k < |t|
    ensures Where(t, f) == Where(t[..k], f) + Own(t[k], f) + Where(t[k + 1..], f)
  {
    if k > 0 {
      WhereAt(t[1..], f, k - 1);
      assert t[1..][..k - 1] == t[..k][1..] && t[1..][k..] == t[k + 1..];
    }
  }

  /** Turning one row from unwanted to wanted puts its number into the answer, in its place. */
  lemma {:induction false} WhereFlip(t: seq<Block>, u: seq<Block>, f: Block -> bool, k: nat)
    requires k < |t| == |u| && t[k].blockNumber == u[k].blockNumber && !f(t[k]) && f(u[k])
    requires forall i :: 0 <= i < |t| && i != k ==> t[i] == u[i]
    ensures Where(t, f) == Where(t[..k], f) + Where(t[k + 1..], f)
    ensures Where(u, f) == Where(t[..k], f) + [t[k].blockNumber] + Where(t[k + 1..], f)
  {
    WhereAt(t, f, k);
    WhereAt(u, f, k);
    assert t[..k] == u[..k] && t[k + 1..] == u[k + 1..];
  }

  /** The row a number in an answer comes from. */
  lemma {:induction false} WhereFrom(t: seq<Block>, f: Block -> bool, j: nat) returns (i: nat)
    requires j < |Where(t, f)|
    ensures i < |t| && f(t[i]) && t[i].blockNumber == Where(t, f)[j]
  {
    if f(t[0]) && j == 0 {
      i := 0;
    } else {
      i := WhereFrom(t[1..], f, if f(t[0]) then j - 1 else j);
      i := i + 1;
    }
  }

  lemma {:induction false} WhereHas(t: seq<Block>, f: Block -> bool, i: nat) returns (j: nat)
    requires i < |t| && f(t[i])
    ensures j < |Where(t, f)| && Where(t, f)[j] == t[i].blockNumber
  {
    if i == 0 {
      j := 0;
    } else {
      j := WhereHas(t[1..], f, i - 1);
      j := if f(t[0]) then j + 1 else j;
    }
  }

  lemma {:induction false} WhereRises(t: seq<Block>, f: Block -> bool)
    requires Ascending(t)
    ensures Rising(Where(t, f))
  {
    if t != [] {
      WhereRises(t[1..], f);
      var rest := Where(t[1..], f);
      forall j | 0 <= j < |rest|
        ensures t[0].blockNumber < rest[j]
      {
        var i := WhereFrom(t[1..], f, j);
        assert t[1..][i] == t[i + 1];
      }
    }
  }

  /** The last number found is the cursor's next place: nothing wanted lies above it. */
  lemma LastFound(t: seq<Block>, st: BlockStatus, lo: nat) returns (hi: nat)
    requires Ascending(t)
    ensures hi == Last(Where(t, Above(st, lo)), lo) >= lo
    ensures hi == lo || exists i :: 0 <= i < |t| && t[i].blockStatus == st && t[i].blockNumber == hi
    ensures forall i :: 0 <= i < |t| && t[i].blockStatus == st ==> t[i].blockNumber <= hi
  {
    var f := Above(st, lo);
    var found := Where(t, f);
    hi := Last(found, lo);
    WhereRises(t, f);
    if found != [] {
      var i := WhereFrom(t, f, |found| - 1);
      assert t[i].blockStatus == st;
    }
    forall i | 0 <= i < |t| && t[i].blockStatus == st
      ensures t[i].blockNumber <= hi
    {
      if f(t[i]) { var j := WhereHas(t, f, i); }
    }
  }

  /** Below and above a cursor lie all. */
  lemma {:induction false} CursorSplits(t: seq<Block>, st: BlockStatus, c: nat)
    requires Ascending(t)
    ensures Where(t, Within(st, c)) + Where(t, Above(st, c)) == Where(t, Above(st, 0))
  {
    if t != [] {
      CursorSplits(t[1..], st, c);
      if t[0].blockNumber > c {
        WhereNone(t[1..], Within(st, c));
      }
    }
  }

  /** Moving the cursor to the last number found moves the numbers found below it. */
  lemma {:induction false} CursorMoves(t: seq<Block>, st: BlockStatus, lo: nat)
    requires Ascending(t)
    ensures Where(t, Within(st, Last(Where(t, Above(st, lo)), lo)))
      == Where(t, Within(st, lo)) + Where(t, Above(st, lo))
  {
    var hi := LastFound(t, st, lo);
    WhereSame(t, Within(st, hi), t, Above(st, 0));
    CursorSplits(t, st, lo);
  }

  /** The block the prover looks up is the first wanted one. */
  lemma {:induction false} LowestIsFirst(t: seq<Block>, st: BlockStatus) returns (k: nat)
    requires Lowest(t, st).Some?
    ensures k < |t| && Lowest(t, st) == Some(t[k]) && t[k].blockStatus == st
    ensures forall i :: 0 <= i < k ==> t[i].blockStatus != st
  {
    if t[0].blockStatus == st {
      k := 0;
    } else {
      k := LowestIsFirst(t[1..], st);
      assert t[1..][k] == t[k + 1];
      k := k + 1;
    }
  }

  lemma {:induction false} LowestFound(t: seq<Block>, st: BlockStatus, i: nat)
    requires i < |t| && t[i].blockStatus == st
    ensures Lowest(t, st).Some?
  {
    if t[0].blockStatus != st { LowestFound(t[1..], st, i - 1); }
  }

  // ---------- Each event, exactly ----------

  lemma OpenAscends(t: seq<Block>, b: Block)
    requires Ascending(t) && b.blockNumber >= NextNumber(t)
    ensures Ascending(t + [b])
  {
    assert forall i :: 0 <= i < |t| - 1 ==> t[i].blockNumber < t[|t| - 1].blockNumber;
  }

  lemma StillNamed(t: seq<Block>, u: seq<Block>, n: nat)
    requires |t| <= |u| && forall i :: 0 <= i < |t| && t[i].blockStatus == L2CONFIRMED ==> u[i] == t[i]
    ensures NamesConfirmed(t, n) ==> NamesConfirmed(u, n)
  {
    if NamesConfirmed(t, n) {
      var i :| 0 <= i < |t| && t[i].blockNumber == n && t[i].blockStatus == L2CONFIRMED;
      assert u[i] == t[i];
    }
  }

  lemma OpenRows(s: State, b: Block)
    requires RowsFit(s) && b.blockStatus == PROCESSING
    ensures RowsFit(s.(table := s.table + [b]))
  {
    StillNamed(s.table, s.table + [b], s.currentProvedBlock);
  }

  lemma {:induction false} Unfound(t: seq<Block>, b: Block, f: Block -> bool)
    requires !f(b)
    ensures Where(t + [b], f) == Where(t, f)
  {
    WhereConcat(t, [b], f);
    assert Where(t, f) + [] == Where(t, f);
  }

  lemma OpenKeeps(s: State, gap: nat)
    requires Good(s)
    ensures Good(Step(s, Open(gap)))
  {
    var b := Block(NextNumber(s.table) + gap, PROCESSING, false, None);
    OpenAscends(s.table, b);
    OpenRows(s, b);
    Unfound(s.table, b, Within(L2EXECUTED, s.currentPendingBlock));
    Unfound(s.table, b, Within(L2CONFIRMED, s.currentProvedBlock));
    assert Step(s, Open(gap)) == s.(table := s.table + [b]);
  }

  lemma SealAbsent(s: State, n: nat, rawData: bool)
    requires !IsProcessing(s.table, n)
    ensures Step(s, Seal(n, rawData)) == s
  {
    assert SealIn(s.table, n, rawData) == s.table;
  }

  /** Sealing a block that is being processed changes its row alone. */
  lemma SealChanges(s: State, n: nat, rawData: bool) returns (k: nat)
    requires Ascending(s.table) && IsProcessing(s.table, n)
    ensures k < |s.table| && s.table[k].blockNumber == n && s.table[k].blockStatus == PROCESSING
    ensures Step(s, Seal(n, rawData)).table == s.table[k := s.table[k].(blockStatus := L2EXECUTED, rawData := rawData)]
  {
    var t := s.table;
    k :| 0 <= k < |t| && t[k].blockNumber == n && t[k].blockStatus == PROCESSING;
    assert forall i :: 0 <= i < |t| && i != k ==> Sealed(t[i], n, rawData) == t[i];
    var u := SealIn(t, n, rawData);
    assert Step(s, Seal(n, rawData)).table == u && u[k] == t[k].(blockStatus := L2EXECUTED, rawData := rawData);
    OnlyOneChanged(t, u, k);
  }

  lemma OnlyOneChanged(t: seq<Block>, u: seq<Block>, k: nat)
    requires k < |t| == |u| && forall i :: 0 <= i < |t| && i != k ==> u[i] == t[i]
    ensures u == t[k := u[k]]
  {
  }

  lemma SealRows(s: State, n: nat, rawData: bool, k: nat)
    requires Ascending(s.table) && RowsFit(s)
    requires k < |s.table| && s.table[k].blockNumber == n && s.table[k].blockStatus == PROCESSING
    ensures var r := s.(table := s.table[k := s.table[k].(blockStatus := L2EXECUTED, rawData := rawData)]);
      Ascending(r.table) && (RowsFit(r) <==> rawData && AboveConfirmed(s.table, n))
  {
    var t, u := s.table, s.table[k := s.table[k].(blockStatus := L2EXECUTED, rawData := rawData)];
    var r := s.(table := u);
    assert forall i :: 0 <= i < |t| && i != k ==> u[i] == t[i];
    StillNamed(t, u, s.currentProvedBlock);
    if RowsFit(r) {
      assert RowFits(u[k], r);
      forall i | 0 <= i < |t| && t[i].blockStatus == L2CONFIRMED ensures t[i].blockNumber < n {
        assert u[i] == t[i];
      }
    }
    if rawData && AboveConfirmed(t, n) {
      forall i | 0 <= i < |u| ensures RowFits(u[i], r) {
        assert RowFits(t[i], s);
      }
    }
  }

  lemma {:induction false} SealQueues(t: seq<Block>, u: seq<Block>, k: nat, hi: nat)
    requires k < |t| == |u| && t[k].blockStatus == PROCESSING && u == t[k := u[k]]
    requires u[k].blockNumber == t[k].blockNumber && u[k].blockStatus == L2EXECUTED
    ensures Where(t, Within(L2EXECUTED, hi)) == Where(u, Within(L2EXECUTED, hi)) <==> t[k].blockNumber > hi
  {
    var f := Within(L2EXECUTED, hi);
    if t[k].blockNumber > hi {
      WhereSame(t, f, u, f);
    } else {
      WhereFlip(t, u, f, k);
      assert |Where(u, f)| == |Where(t, f)| + 1;
    }
  }

  lemma SealExactly(s: State, n: nat, rawData: bool)
    requires Good(s)
    ensures Good(Step(s, Seal(n, rawData))) <==> Safe(s, Seal(n, rawData))
  {
    if IsProcessing(s.table, n) {
      var k := SealChanges(s, n, rawData);
      var u := Step(s, Seal(n, rawData)).table;
      SealRows(s, n, rawData, k);
      SealQueues(s.table, u, k, s.currentPendingBlock);
      WhereSame(s.table, Within(L2CONFIRMED, s.currentProvedBlock), u, Within(L2CONFIRMED, s.currentProvedBlock));
    } else {
      SealAbsent(s, n, rawData);
    }
  }

  lemma DispatchPendingKeeps(s: State)
    requires Good(s)
    ensures Good(Step(s, DispatchPending))
    ensures Step(s, DispatchPending).proverQueue == Where(s.table, Above(L2EXECUTED, 0))
  {
    var hi := LastFound(s.table, L2EXECUTED, s.currentPendingBlock);
    CursorMoves(s.table, L2EXECUTED, s.currentPendingBlock);
    CursorSplits(s.table, L2EXECUTED, s.currentPendingBlock);
  }

  lemma DispatchProvedKeeps(s: State)
    requires Good(s)
    ensures Good(Step(s, DispatchProved))
    ensures Step(s, DispatchProved).operatorJobs == Where(s.table, Above(L2CONFIRMED, 0))
  {
    var hi := LastFound(s.table, L2CONFIRMED, s.currentProvedBlock);
    CursorMoves(s.table, L2CONFIRMED, s.currentProvedBlock);
    CursorSplits(s.table, L2CONFIRMED, s.currentProvedBlock);
  }

  /** While the invariant holds, the lowest executed block is the one the first job names. */
  lemma JobNamesLowest(s: State) returns (k: nat)
    requires Good(s) && s.proverQueue != []
    ensures k < |s.table| && Lowest(s.table, L2EXECUTED) == Some(s.table[k])
    ensures s.table[k].blockNumber == s.proverQueue[0] && s.table[k].blockStatus == L2EXECUTED
    ensures forall i :: 0 <= i < k ==> s.table[i].blockStatus != L2EXECUTED
  {
    var t, f := s.table, Within(L2EXECUTED, s.currentPendingBlock);
    var i := WhereFrom(t, f, 0);
    LowestFound(t, L2EXECUTED, i);
    k := LowestIsFirst(t, L2EXECUTED);
    assert f(t[k]);
    WhereNone(t[..k], f);
    WhereAt(t, f, k);
  }

  /** Marking the first executed row with its own proof. */
  lemma ProcessRows(s: State, k: nat)
    requires Ascending(s.table) && RowsFit(s) && k < |s.table| && s.table[k].blockStatus == L2EXECUTED
    requires forall i :: 0 <= i < k ==> s.table[i].blockStatus != L2EXECUTED
    ensures var u := s.table[k := s.table[k].(blockStatus := L2CONFIRMED, proof := Some(s.table[k].blockNumber))];
      Ascending(u) && RowsFit(s.(table := u))
  {
    var u := s.table[k := s.table[k].(blockStatus := L2CONFIRMED, proof := Some(s.table[k].blockNumber))];
    StillNamed(s.table, u, s.currentProvedBlock);
    forall i | 0 <= i < |u| ensures RowFits(u[i], s.(table := u)) {
      assert RowFits(s.table[i], s);
    }
  }

  /** What marking it takes out of the executed and adds to the confirmed. */
  lemma {:induction false} ProcessQueries(s: State, k: nat, u: seq<Block>)
    requires Ascending(s.table) && RowsFit(s) && k < |s.table| && s.table[k].blockStatus == L2EXECUTED
    requires forall i :: 0 <= i < k ==> s.table[i].blockStatus != L2EXECUTED
    requires u == s.table[k := s.table[k].(blockStatus := L2CONFIRMED, proof := Some(s.table[k].blockNumber))]
    ensures var n := s.table[k].blockNumber;
      && Where(s.table, Above(L2EXECUTED, 0)) == [n] + Where(u, Above(L2EXECUTED, 0))
      && Where(u, Above(L2CONFIRMED, 0)) == Where(s.table, Above(L2CONFIRMED, 0)) + [n]
      && Where(u, Within(L2CONFIRMED, s.currentProvedBlock))
        == Where(s.table, Within(L2CONFIRMED, s.currentProvedBlock))
      && (n <= s.currentPendingBlock ==>
            Where(s.table, Within(L2EXECUTED, s.currentPendingBlock))
              == [n] + Where(u, Within(L2EXECUTED, s.currentPendingBlock)))
  {
    var t := s.table;
    assert RowFits(t[k], s);
    if t[k].blockNumber <= s.currentPendingBlock { TakesFirst(t, u, Within(L2EXECUTED, s.currentPendingBlock), k); }
    TakesFirst(t, u, Above(L2EXECUTED, 0), k);
    WhereSame(t, Within(L2CONFIRMED, s.currentProvedBlock), u, Within(L2CONFIRMED, s.currentProvedBlock));
    WhereFlip(t, u, Above(L2CONFIRMED, 0), k);
    WhereNone(t[k + 1..], Above(L2CONFIRMED, 0));
  }

  /** A job that succeeds takes the first number off the queue and marks that very block, with
      that block's own proof. */
  lemma ProcessKeeps(s: State) returns (k: nat)
    requires Good(s) && s.proverQueue != []
    ensures Good(Step(s, Process(true)))
    ensures k < |s.table| && s.table[k].blockNumber == s.proverQueue[0] && s.table[k].blockStatus == L2EXECUTED
    ensures Step(s, Process(true)).table
         == s.table[k := s.table[k].(blockStatus := L2CONFIRMED, proof := Some(s.proverQueue[0]))]
    ensures Where(Step(s, Process(true)).table, Above(L2CONFIRMED, 0))
         == Where(s.table, Above(L2CONFIRMED, 0)) + [s.proverQueue[0]]
    ensures Where(s.table, Above(L2EXECUTED, 0))
         == [s.proverQueue[0]] + Where(Step(s, Process(true)).table, Above(L2EXECUTED, 0))
  {
    k := JobNamesLowest(s);
    var t, u := s.table, Step(s, Process(true)).table;
    assert RowFits(t[k], s);
    assert forall i :: 0 <= i < |t| && i != k ==> u[i] == t[i];
    assert u == t[k := t[k].(blockStatus := L2CONFIRMED, proof := Some(s.proverQueue[0]))];
    var i := WhereFrom(t, Within(L2EXECUTED, s.currentPendingBlock), 0);
    ProcessRows(s, k);
    ProcessQueries(s, k, u);
  }

  lemma {:induction false} TakesFirst(t: seq<Block>, u: seq<Block>, f: Block -> bool, k: nat)
    requires k < |t| == |u| && t[k].blockNumber == u[k].blockNumber && f(t[k]) && !f(u[k])
    requires forall i :: 0 <= i < |t| && i != k ==> t[i] == u[i]
    requires forall i :: 0 <= i < k ==> !f(t[i])
    ensures Where(t, f) == [t[k].blockNumber] + Where(u, f)
  {
    WhereNone(t[..k], f);
    WhereFlip(u, t, f, k);
    assert u[..k] == t[..k];
  }

  lemma RestartExactly(s: State)
    requires Good(s)
    ensures Good(Step(s, Restart)) <==> Safe(s, Restart)
  {
    WhereNone(s.table, Within(L2EXECUTED, 0));
    WhereNone(s.table, Within(L2CONFIRMED, 0));
    forall i | 0 <= i < |s.table| ensures RowFits(s.table[i], Step(s, Restart)) {
      assert RowFits(s.table[i], s);
    }
  }

  /** The invariant survives exactly the events the protocol withstands. */
  lemma PipelineKeptExactly(s: State, e: Event)
    requires Good(s)
    ensures Good(Step(s, e)) <==> Safe(s, e)
  {
    match e
    case Open(gap) => OpenKeeps(s, gap);
    case Seal(n, rawData) => SealExactly(s, n, rawData);
    case DispatchPending => DispatchPendingKeeps(s);
    case DispatchProved => DispatchProvedKeeps(s);
    case Process(proves) =>
      if proves && s.proverQueue != [] { var k := ProcessKeeps(s); }
    case Restart => RestartExactly(s);
  }

  // ---------- Whole runs ----------

  /** What the prover proves at one event, if anything. */
  function ProvedAt(s: State, e: Event): seq<nat> {
    if e == Process(true) && s.proverQueue != [] && Lowest(s.table, L2EXECUTED).Some?
      && Lowest(s.table, L2EXECUTED).value.rawData
    then [Lowest(s.table, L2EXECUTED).value.blockNumber] else []
  }

  function Proofs(s: State, events: seq<Event>): seq<nat>
    decreases |events|
  {
    if events == [] then [] else ProvedAt(s, events[0]) + Proofs(Step(s, events[0]), events[1..])
  }

  lemma ConfirmedGrows(s: State, e: Event)
    requires Good(s) && Safe(s, e)
    ensures Where(Step(s, e).table, Above(L2CONFIRMED, 0)) == Where(s.table, Above(L2CONFIRMED, 0)) + ProvedAt(s, e)
  {
    match e
    case Open(gap) =>
      WhereConcat(s.table, [Block(NextNumber(s.table) + gap, PROCESSING, false, None)], Above(L2CONFIRMED, 0));
    case Seal(n, rawData) =>
      WhereSame(s.table, Above(L2CONFIRMED, 0), SealIn(s.table, n, rawData), Above(L2CONFIRMED, 0));
    case Process(proves) =>
      if s.proverQueue != [] {
        var k := JobNamesLowest(s);
        assert RowFits(s.table[k], s);
        var j := ProcessKeeps(s);
      }
    case _ =>
  }

  lemma {:induction false} SafeRunKeeps(s: State, events: seq<Event>)
    requires Good(s) && SafeRun(s, events)
    ensures Good(Run(s, events))
    decreases |events|
  {
    if events != [] {
      PipelineKeptExactly(s, events[0]);
      SafeRunKeeps(Step(s, events[0]), events[1..]);
    }
  }

  lemma Associates<T>(a: seq<T>, b: seq<T>, c: seq<T>)
    ensures a + b + c == a + (b + c)
  {
  }

  lemma {:induction false} SafeRunConfirms(s: State, events: seq<Event>)
    requires Good(s) && SafeRun(s, events)
    ensures Where(Run(s, events).table, Above(L2CONFIRMED, 0))
      == Where(s.table, Above(L2CONFIRMED, 0)) + Proofs(s, events)
    decreases |events|
  {
    var before := Where(s.table, Above(L2CONFIRMED, 0));
    if events == [] {
      assert before + [] == before;
    } else {
      PipelineKeptExactly(s, events[0]);
      ConfirmedGrows(s, events[0]);
      SafeRunConfirms(Step(s, events[0]), events[1..]);
      Associates(before, ProvedAt(s, events[0]), Proofs(Step(s, events[0]), events[1..]));
    }
  }

  /** Along any run the protocol withstands, what is proved, proof by proof, is what ends up
      confirmed, and it is in ascending order: each block is proved once, and in turn. */
  lemma {:induction false} EachProvedOnceInOrder(s: State, events: seq<Event>)
    requires Good(s) && SafeRun(s, events)
    ensures Good(Run(s, events))
    ensures Where(Run(s, events).table, Above(L2CONFIRMED, 0))
      == Where(s.table, Above(L2CONFIRMED, 0)) + Proofs(s, events)
    ensures Rising(Where(Run(s, events).table, Above(L2CONFIRMED, 0)))
  {
    SafeRunKeeps(s, events);
    SafeRunConfirms(s, events);
    WhereRises(Run(s, events).table, Above(L2CONFIRMED, 0));
  }

  /** From a fresh start: every confirmed block holds its own proof, and every job that is
      waiting names an executed block, the first job the lowest of them. */
  lemma {:induction false} ProofsMatchBlocks(events: seq<Event>)
    requires SafeRun(INITIAL, events)
    ensures var s := Run(INITIAL, events);
      && (forall i ::
        0 <= i < |s.table| && s.table[i].blockStatus == L2CONFIRMED ==>
          s.table[i].proof == Some(s.table[i].blockNumber))
      && s.proverQueue == Where(s.table, Within(L2EXECUTED, s.currentPendingBlock))
      && (s.proverQueue != [] ==>
        var first := Lowest(s.table, L2EXECUTED);
        first.Some? && first.value.blockNumber == s.proverQueue[0])
  {
    EachProvedOnceInOrder(INITIAL, events);
    var s := Run(INITIAL, events);
    assert forall i :: 0 <= i < |s.table| ==> RowFits(s.table[i], s);
    if s.proverQueue != [] { var k := JobNamesLowest(s); }
  }

  function Jobs(n: nat): seq<Event> {
    if n == 0 then [] else [Process(true)] + Jobs(n - 1)
  }

  lemma OneJobLess(n: nat)
    requires n > 0
    ensures Jobs(n)[0] == Process(true) && Jobs(n)[1..] == Jobs(n - 1)
  {
  }

  /** Working off the queue confirms what was waiting, in order, and leaves the executed blocks
      that were not. */
  lemma {:induction false} QueueDrains(s: State, n: nat)
    requires Good(s) && n == |s.proverQueue|
    ensures SafeRun(s, Jobs(n)) && Proofs(s, Jobs(n)) == s.proverQueue
    ensures var r := Run(s, Jobs(n));
      && r.proverQueue == []
      && Where(s.table, Above(L2EXECUTED, 0)) == s.proverQueue + Where(r.table, Above(L2EXECUTED, 0))
    decreases n
  {
    if n == 0 {
      assert s.proverQueue == [];
    } else {
      var next := Step(s, Process(true));
      JobProves(s);
      OneJobLess(n);
      QueueDrains(next, n - 1);
      ConcatFirst(s.proverQueue[0], next.proverQueue, Where(Run(next, Jobs(n - 1)).table, Above(L2EXECUTED, 0)));
    }
  }

  /** One job of the many. */
  lemma JobProves(s: State)
    requires Good(s) && s.proverQueue != []
    ensures var r := Step(s, Process(true));
      && Good(r) && Safe(s, Process(true)) && ProvedAt(s, Process(true)) == [s.proverQueue[0]]
      && s.proverQueue == [s.proverQueue[0]] + r.proverQueue
      && Where(s.table, Above(L2EXECUTED, 0)) == [s.proverQueue[0]] + Where(r.table, Above(L2EXECUTED, 0))
  {
    var k := JobNamesLowest(s);
    assert RowFits(s.table[k], s);
    k := ProcessKeeps(s);
  }

  lemma ConcatFirst<T>(x: T, s: seq<T>, t: seq<T>)
    ensures [x] + (s + t) == [x] + s + t
  {
  }

  lemma {:induction false} NoneExecuted(t: seq<Block>)
    requires Ascending(t) && Where(t, Above(L2EXECUTED, 0)) == []
    ensures Lowest(t, L2EXECUTED) == None
  {
    if Lowest(t, L2EXECUTED).Some? {
      var k := LowestIsFirst(t, L2EXECUTED);
      var j := WhereHas(t, Above(L2EXECUTED, 0), k);
    }
  }

  /** One dispatch and as many jobs as there are executed blocks confirm all of them. */
  lemma {:induction false} DispatchThenDrain(s: State)
    requires Good(s)
    ensures var executed := Where(s.table, Above(L2EXECUTED, 0));
      var events := [DispatchPending] + Jobs(|executed|);
      SafeRun(s, events) && Proofs(s, events) == executed && Lowest(Run(s, events).table, L2EXECUTED) == None
  {
    var executed := Where(s.table, Above(L2EXECUTED, 0));
    var events := [DispatchPending] + Jobs(|executed|);
    DispatchPendingKeeps(s);
    assert events[1..] == Jobs(|executed|);
    QueueDrains(Step(s, DispatchPending), |executed|);
    EachProvedOnceInOrder(s, events);
    NoneExecuted(Run(s, events).table);
  }

  /** A job that fails is gone, and the next one then marks its own block with the proof of the
      block that failed, which stays executed below the cursor. */
  lemma {:induction false} FailedJobMisproves(s: State)
    requires Good(s) && |s.proverQueue| >= 2
    ensures var r := Run(s, [Process(false), Process(true)]);
      && (exists i :: 0 <= i < |r.table| && r.table[i].blockNumber == s.proverQueue[1]
           && r.table[i].blockStatus == L2CONFIRMED && r.table[i].proof == Some(s.proverQueue[0]))
      && (exists i :: 0 <= i < |r.table| && r.table[i].blockNumber == s.proverQueue[0]
           && r.table[i].blockStatus == L2EXECUTED && r.table[i].blockNumber <= r.currentPendingBlock)
      && s.proverQueue[0] < s.proverQueue[1]
  {
    var k := JobNamesLowest(s);
    assert RowFits(s.table[k], s);
    var f := Within(L2EXECUTED, s.currentPendingBlock);
    var i := WhereFrom(s.table, f, 0);
    var j := WhereFrom(s.table, f, 1);
    WhereRises(s.table, f);
    var s1 := Step(s, Process(false));
    assert s1 == s.(proverQueue := s.proverQueue[1..]);
    var r := Step(s1, Process(true));
    assert [Process(false), Process(true)][1..] == [Process(true)] && [Process(true)][1..] == [];
    assert Run(s, [Process(false), Process(true)]) == Run(s1, [Process(true)]) == Run(r, []);
    assert r.table[j] == s.table[j].(blockStatus := L2CONFIRMED, proof := Some(s.proverQueue[0]));
    assert r.table[i] == s.table[i];
  }

  const OPENED_AND_SEALED: seq<Event> := [Open(0), Open(0), Seal(1, true)]
  const SEALED_TWO: seq<Event> := OPENED_AND_SEALED + [Seal(2, true), DispatchPending]

  lemma BothFound(x: Block, y: Block, f: Block -> bool)
    requires f(x) && f(y)
    ensures Where([x, y], f) == [x.blockNumber, y.blockNumber]
  {
    assert [x, y][1..] == [y] && [y][1..] == [];
    assert Where([y], f) == [y.blockNumber] && Where([x, y], f) == [x.blockNumber] + [y.blockNumber];
  }

  function Opened(n: nat): Block {
    Block(n, PROCESSING, false, None)
  }

  function Executed(n: nat): Block {
    Block(n, L2EXECUTED, true, None)
  }

  lemma SealingTwo()
    ensures SealIn([Opened(1), Opened(2)], 1, true) == [Executed(1), Opened(2)]
    ensures SealIn([Executed(1), Opened(2)], 2, true) == [Executed(1), Executed(2)]
  {
    var once, twice := SealIn([Opened(1), Opened(2)], 1, true), SealIn([Executed(1), Opened(2)], 2, true);
    assert once[0] == Executed(1) && once[1] == Opened(2);
    assert twice[0] == Executed(1) && twice[1] == Executed(2);
  }

  lemma {:induction false} RunConcat(s: State, a: seq<Event>, b: seq<Event>)
    ensures Run(s, a + b) == Run(Run(s, a), b)
    ensures SafeRun(s, a + b) <==> SafeRun(s, a) && SafeRun(Run(s, a), b)
    decreases |a|
  {
    if a == [] {
      assert a + b == b;
    } else {
      assert (a + b)[1..] == a[1..] + b;
      RunConcat(Step(s, a[0]), a[1..], b);
    }
  }

  lemma {:induction false} RunThree(s: State, a: Event, b: Event, c: Event)
    ensures Run(s, [a, b, c]) == Step(Step(Step(s, a), b), c)
    ensures SafeRun(s, [a, b, c]) <==> Safe(s, a) && Safe(Step(s, a), b) && Safe(Step(Step(s, a), b), c)
  {
    assert [a, b, c][1..] == [b, c] && [b, c][1..] == [c] && [c][1..] == [];
    var s1, s2, s3 := Step(s, a), Step(Step(s, a), b), Step(Step(Step(s, a), b), c);
    assert Run(s2, [c]) == Run(s3, []) && (SafeRun(s2, [c]) <==> Safe(s2, c) && SafeRun(s3, []));
    assert Run(s1, [b, c]) == Run(s2, [c]) && (SafeRun(s1, [b, c]) <==> Safe(s1, b) && SafeRun(s2, [c]));
    assert Run(s, [a, b, c]) == Run(s1, [b, c]) && (SafeRun(s, [a, b, c]) <==> Safe(s, a) && SafeRun(s1, [b, c]));
  }

  function OneSealed(): State {
    State([Executed(1), Opened(2)], 0, 0, [], [])
  }

  lemma OneSealedIs()
    ensures Run(INITIAL, OPENED_AND_SEALED) == OneSealed() && SafeRun(INITIAL, OPENED_AND_SEALED)
  {
    RunThree(INITIAL, Open(0), Open(0), Seal(1, true));
    assert Step(Step(INITIAL, Open(0)), Open(0)) == State([Opened(1), Opened(2)], 0, 0, [], []);
    SealingTwo();
  }

  /** From a fresh start, two sealed blocks and a dispatch leave two jobs waiting. */
  lemma TwoJobsReached()
    ensures SafeRun(INITIAL, SEALED_TWO)
    ensures Good(Run(INITIAL, SEALED_TWO)) && Run(INITIAL, SEALED_TWO).proverQueue == [1, 2]
  {
    OneSealedIs();
    SecondSealed();
    RunConcat(INITIAL, OPENED_AND_SEALED, [Seal(2, true), DispatchPending]);
    EachProvedOnceInOrder(INITIAL, SEALED_TWO);
  }

  lemma SecondSealed()
    ensures var events := [Seal(2, true), DispatchPending];
      SafeRun(OneSealed(), events) && Run(OneSealed(), events).proverQueue == [1, 2]
  {
    SealingTwo();
    BothFound(Executed(1), Executed(2), Above(L2EXECUTED, 0));
    assert [Seal(2, true), DispatchPending][1..] == [DispatchPending] && [DispatchPending][1..] == [];
    var s := Step(OneSealed(), Seal(2, true));
    assert s == OneSealed().(table := [Executed(1), Executed(2)]);
    assert Step(s, DispatchPending).proverQueue == [] + [1, 2];
    assert Run(OneSealed(), [Seal(2, true), DispatchPending]) == Run(s, [DispatchPending]) == Step(s, DispatchPending);
  }

  // ---------- Restarts ----------

  /** The state without what concerns the operator. */
  function ProverSide(s: State): State {
    s.(currentProvedBlock := 0, operatorJobs := [])
  }

  lemma GoodForProver(s: State)
    requires Good(s)
    ensures Good(ProverSide(s))
  {
    WhereNone(s.table, Within(L2CONFIRMED, 0));
    forall i | 0 <= i < |s.table| ensures RowFits(s.table[i], ProverSide(s)) {
      assert RowFits(s.table[i], s);
    }
  }

  /** The prover's side of the invariant, on its own, survives a restart exactly when no job
      waits, and any other event as before. */
  lemma ProverSideKeptExactly(s: State, e: Event)
    requires Good(ProverSide(s))
    ensures Good(ProverSide(Step(s, e))) <==> if e.Restart? then s.proverQueue == [] else Safe(s, e)
  {
    if e.DispatchProved? {
      assert ProverSide(Step(s, e)) == ProverSide(s);
    } else {
      assert ProverSide(Step(s, e)) == Step(ProverSide(s), e);
      PipelineKeptExactly(ProverSide(s), e);
    }
  }

  /** A restarted producer hands every waiting block to the prover once more, behind the first
      time, and every block the operator was ever handed to the operator once more. */
  lemma {:induction false} RestartHandsOutAgain(s: State)
    requires Good(s)
    ensures var executed := Where(s.table, Above(L2EXECUTED, 0));
      Run(s, [Restart, DispatchPending]).proverQueue == s.proverQueue + executed && s.proverQueue <= executed
    ensures var confirmed := Where(s.table, Above(L2CONFIRMED, 0));
      Run(s, [Restart, DispatchProved]).operatorJobs == s.operatorJobs + confirmed && s.operatorJobs <= confirmed
  {
    CursorSplits(s.table, L2EXECUTED, s.currentPendingBlock);
    CursorSplits(s.table, L2CONFIRMED, s.currentProvedBlock);
    assert [Restart, DispatchPending][1..] == [DispatchPending] && [DispatchPending][1..] == [];
    assert [Restart, DispatchProved][1..] == [DispatchProved] && [DispatchProved][1..] == [];
    var r := Step(s, Restart);
    assert Run(s, [Restart, DispatchPending]) == Run(Step(r, DispatchPending), []);
    assert Run(s, [Restart, DispatchProved]) == Run(Step(r, DispatchProved), []);
  }

  /** Jobs waiting behind do not change what the jobs in front do. */
  lemma {:induction false} JobsInFront(s: State, q: State, more: seq<nat>, n: nat)
    requires n <= |s.proverQueue| && q.table == s.table && q.proverQueue == s.proverQueue + more
    ensures Run(q, Jobs(n)).table == Run(s, Jobs(n)).table
    ensures Run(q, Jobs(n)).proverQueue == Run(s, Jobs(n)).proverQueue + more
    decreases n
  {
    if n > 0 {
      OneJobLess(n);
      assert q.proverQueue[1..] == s.proverQueue[1..] + more;
      JobsInFront(Step(s, Process(true)), Step(q, Process(true)), more, n - 1);
    }
  }

  /** After a restart with jobs waiting and an executed block behind them, the jobs that were
      waiting are done, and then the first of them a second time: the block it names, already
      confirmed, gets the proof of that block behind. */
  lemma {:induction false} RestartMisproves(s: State)
    requires Good(s) && s.proverQueue != [] && Where(s.table, Above(L2EXECUTED, s.currentPendingBlock)) != []
    ensures var wrong := Where(s.table, Above(L2EXECUTED, s.currentPendingBlock))[0];
      var r := Run(s, [Restart, DispatchPending] + Jobs(|s.proverQueue|) + [Process(true)]);
      && wrong > s.proverQueue[0]
      && exists i :: 0 <= i < |r.table| && r.table[i].blockNumber == s.proverQueue[0]
           && r.table[i].blockStatus == L2CONFIRMED && r.table[i].proof == Some(wrong)
  {
    var n, e := |s.proverQueue|, [Restart, DispatchPending] + Jobs(|s.proverQueue|);
    JobsBeforeAgain(s, n);
    RunConcat(s, e, [Process(true)]);
    RunOne(Run(s, e), Process(true));
    var i := FirstConfirmed(s, n);
    var k := BehindIsLowest(s, n);
    var j := WhereFrom(s.table, Above(L2EXECUTED, s.currentPendingBlock), 0);
    var j' := WhereFrom(s.table, Within(L2EXECUTED, s.currentPendingBlock), 0);
  }

  /** Those jobs leave the table they would have left without a restart, and the others wait. */
  lemma {:induction false} JobsBeforeAgain(s: State, n: nat)
    requires Good(s) && n == |s.proverQueue| > 0
    ensures var before := Run(s, [Restart, DispatchPending] + Jobs(n));
      && before.table == Run(s, Jobs(n)).table
      && before.proverQueue != [] && before.proverQueue[0] == s.proverQueue[0]
  {
    var again, more := Run(s, [Restart, DispatchPending]), Where(s.table, Above(L2EXECUTED, 0));
    RestartHandsOutAgain(s);
    assert [Restart, DispatchPending][1..] == [DispatchPending];
    RunOne(Step(s, Restart), DispatchPending);
    JobsInFront(s, again, more, n);
    RunConcat(s, [Restart, DispatchPending], Jobs(n));
    QueueDrains(s, n);
    assert [] + more == more && more[0] == s.proverQueue[0];
  }

  lemma {:induction false} RunOne(s: State, e: Event)
    ensures Run(s, [e]) == Step(s, e)
  {
    assert [e][1..] == [];
  }

  /** The first waiting block is confirmed when the jobs are done. */
  lemma FirstConfirmed(s: State, n: nat) returns (i: nat)
    requires Good(s) && n == |s.proverQueue| > 0
    ensures var t := Run(s, Jobs(n)).table;
      i < |t| && t[i].blockNumber == s.proverQueue[0] && t[i].blockStatus == L2CONFIRMED
  {
    QueueDrains(s, n);
    EachProvedOnceInOrder(s, Jobs(n));
    var t := Run(s, Jobs(n)).table;
    i := WhereFrom(t, Above(L2CONFIRMED, 0), |Where(s.table, Above(L2CONFIRMED, 0))|);
  }

  /** And the block the prover finds next is the first one behind the cursor. */
  lemma BehindIsLowest(s: State, n: nat) returns (k: nat)
    requires Good(s) && n == |s.proverQueue| && Where(s.table, Above(L2EXECUTED, s.currentPendingBlock)) != []
    ensures var t := Run(s, Jobs(n)).table;
      && k < |t| && Lowest(t, L2EXECUTED) == Some(t[k]) && t[k].rawData
      && t[k].blockNumber == Where(s.table, Above(L2EXECUTED, s.currentPendingBlock))[0]
  {
    var r, f := Run(s, Jobs(n)), Above(L2EXECUTED, 0);
    QueueDrains(s, n);
    EachProvedOnceInOrder(s, Jobs(n));
    CursorSplits(s.table, L2EXECUTED, s.currentPendingBlock);
    CancelFront(s.proverQueue, Where(r.table, f), Where(s.table, Above(L2EXECUTED, s.currentPendingBlock)));
    k := FirstExecuted(r);
  }

  lemma CancelFront<T>(a: seq<T>, b: seq<T>, c: seq<T>)
    requires a + b == a + c
    ensures b == c
  {
    assert b == (a + b)[|a|..] && c == (a + c)[|a|..];
  }

  lemma FirstExecuted(r: State) returns (k: nat)
    requires Good(r) && Where(r.table, Above(L2EXECUTED, 0)) != []
    ensures k < |r.table| && Lowest(r.table, L2EXECUTED) == Some(r.table[k]) && r.table[k].rawData
    ensures r.table[k].blockNumber == Where(r.table, Above(L2EXECUTED, 0))[0]
  {
    var f := Above(L2EXECUTED, 0);
    var i := WhereFrom(r.table, f, 0);
    LowestFound(r.table, L2EXECUTED, i);
    k := LowestIsFirst(r.table, L2EXECUTED);
    assert RowFits(r.table[k], r);
    WhereNone(r.table[..k], f);
    WhereAt(r.table, f, k);
  }

  const TWICE_DISPATCHED: seq<Event> := [DispatchPending, Restart, DispatchPending]
  const SEALED_BETWEEN_JOBS: seq<Event> := [Process(true), Seal(2, true), Process(true)]

  function WaitingTwice(): State {
    State([Executed(1), Opened(2)], 1, 0, [1, 1], [])
  }

  lemma WaitingTwiceIs()
    ensures Run(OneSealed(), TWICE_DISPATCHED) == WaitingTwice()
  {
    RunThree(OneSealed(), DispatchPending, Restart, DispatchPending);
    FirstOfTwo(Executed(1), Opened(2), Above(L2EXECUTED, 0));
  }

  lemma SecondJobMisproves()
    ensures Run(WaitingTwice(), SEALED_BETWEEN_JOBS).table
      == [Block(1, L2CONFIRMED, true, Some(2)), Block(2, L2EXECUTED, true, None)]
  {
    var s, one := WaitingTwice(), Block(1, L2CONFIRMED, true, Some(1));
    RunThree(s, Process(true), Seal(2, true), Process(true));
    var confirmed := ConfirmIn(s.table, 1, 1);
    assert confirmed[0] == one && confirmed[1] == Opened(2) && confirmed == [one, Opened(2)];
    var sealed := SealIn([one, Opened(2)], 2, true);
    assert sealed[0] == one && sealed[1] == Executed(2) && sealed == [one, Executed(2)];
    var again := ConfirmIn([one, Executed(2)], 1, 2);
    assert again[0] == one.(proof := Some(2)) && again[1] == Executed(2);
    LowestOfTwo(one, Executed(2));
  }

  lemma LowestOfTwo(x: Block, y: Block)
    requires x.blockStatus != L2EXECUTED && y.blockStatus == L2EXECUTED
    ensures Lowest([x, y], L2EXECUTED) == Some(y)
  {
    assert [x, y][1..] == [y];
  }

  /** It also takes effect when the other block is only sealed after the restart: from a fresh
      start block 1 ends up with the proof of block 2, and block 2 unproved. */
  lemma RestartMisprovesFromStart()
    ensures Run(INITIAL, OPENED_AND_SEALED + TWICE_DISPATCHED + SEALED_BETWEEN_JOBS).table
      == [Block(1, L2CONFIRMED, true, Some(2)), Block(2, L2EXECUTED, true, None)]
  {
    RunConcat(INITIAL, OPENED_AND_SEALED, TWICE_DISPATCHED);
    RunConcat(INITIAL, OPENED_AND_SEALED + TWICE_DISPATCHED, SEALED_BETWEEN_JOBS);
    OneSealedIs();
    WaitingTwiceIs();
    SecondJobMisproves();
  }

  lemma FirstOfTwo(x: Block, y: Block, f: Block -> bool)
    requires f(x) && !f(y)
    ensures Where([x, y], f) == [x.blockNumber]
  {
    assert [x, y][1..] == [y] && [y][1..] == [];
    assert Where([y], f) == [];
  }

  // ---------- The services ----------

  class Pipeline {
    var table: seq<Block>
    var currentPendingBlock: nat
    var currentProvedBlock: nat
    var proverQueue: seq<nat>
    var operatorJobs: seq<nat>

    constructor ()
      ensures View() == INITIAL
    {
      table, currentPendingBlock, currentProvedBlock, proverQueue, operatorJobs := [], 0, 0, [], [];
    }

    ghost function View(): State
      reads this
    {
      State(table, currentPendingBlock, currentProvedBlock, proverQueue, operatorJobs)
    }

    method DispatchPeningBlock()
      modifies this
      ensures View() == Step(old(View()), DispatchPending)
    {
      var blocks := Where(table, Above(L2EXECUTED, currentPendingBlock));
      if |blocks| > 0 {
        currentPendingBlock := blocks[|blocks| - 1];
        for index := 0 to |blocks|
          invariant proverQueue == old(proverQueue) + blocks[..index]
          invariant table == old(table) && currentProvedBlock == old(currentProvedBlock)
            && operatorJobs == old(operatorJobs)
          invariant currentPendingBlock == blocks[|blocks| - 1]
        {
          proverQueue := proverQueue + [blocks[index]];
        }
      }
    }

    method DispatchProvedBlock()
      modifies this
      ensures View() == Step(old(View()), DispatchProved)
    {
      var blocks := Where(table, Above(L2CONFIRMED, currentProvedBlock));
      if |blocks| > 0 {
        currentProvedBlock := blocks[|blocks| - 1];
        for index := 0 to |blocks|
          invariant operatorJobs == old(operatorJobs) + blocks[..index]
          invariant table == old(table) && currentPendingBlock == old(currentPendingBlock)
            && proverQueue == old(proverQueue)
          invariant currentProvedBlock == blocks[|blocks| - 1]
        {
          operatorJobs := operatorJobs + [blocks[index]];
        }
      }
    }

    /** The prover's turn with the first job; `proves` is whether the proving tool succeeds. */
    method Process(proves: bool) returns (done: bool)
      requires proverQueue != []
      modifies this
      ensures View() == Step(old(View()), Event.Process(proves))
      ensures done <==> proves && Lowest(old(table), L2EXECUTED).Some? && Lowest(old(table), L2EXECUTED).value.rawData
      ensures Good(old(View())) ==> done == proves && (done ==> Good(View()))
    {
      ghost var s := View();
      var job := proverQueue[0];
      proverQueue := proverQueue[1..];
      var currentBlock := Lowest(table, L2EXECUTED);
      done := false;
      if currentBlock.Some? && currentBlock.value.rawData && proves {
        table := ConfirmIn(table, job, currentBlock.value.blockNumber);
        done := true;
      }
      if Good(s) {
        var k := JobNamesLowest(s);
        assert RowFits(s.table[k], s);
        k := ProcessKeeps(s);
      }
    }
  }
}
