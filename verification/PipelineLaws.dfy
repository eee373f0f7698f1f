/** What every event does to the block table, the cursors and the queues, row by row, in any
    state, and without the words of the queries and updates that do it. */
module PipelineLaws {
  import opened Wrappers
  import opened BlockPipeline

  /** Row m is the first executed one. */
  predicate IsFirstExecuted(t: seq<Block>, m: nat) {
    m < |t| && t[m].blockStatus == L2EXECUTED && forall i :: 0 <= i < m ==> t[i].blockStatus != L2EXECUTED
  }

  predicate NoneIsExecuted(t: seq<Block>) {
    forall i :: 0 <= i < |t| ==> t[i].blockStatus != L2EXECUTED
  }

  lemma {:induction false} FoundFirst(t: seq<Block>, m: nat)
    requires IsFirstExecuted(t, m)
    ensures Lowest(t, L2EXECUTED) == Some(t[m])
    decreases m
  {
    if m > 0 {
      assert IsFirstExecuted(t[1..], m - 1);
      FoundFirst(t[1..], m - 1);
    }
  }

  lemma {:induction false} FoundNone(t: seq<Block>)
    requires NoneIsExecuted(t)
    ensures Lowest(t, L2EXECUTED) == None
  {
    if t != [] { FoundNone(t[1..]); }
  }

  /** A new block gets the number after the last one, or one further on, and nothing else. */
  lemma OpenMoves(s: State, gap: nat)
    ensures var s', last := Step(s, Open(gap)), if s.table == [] then 0 else s.table[|s.table| - 1].blockNumber;
      && s'.table == s.table + [Block(last + 1 + gap, PROCESSING, false, None)]
      && s'.currentPendingBlock == s.currentPendingBlock && s'.currentProvedBlock == s.currentProvedBlock
      && s'.proverQueue == s.proverQueue && s'.operatorJobs == s.operatorJobs
  {
  }

  /** Sealing executes the block of that number if it is being processed, with its data; every
      other row, the cursors and the queues stay. */
  lemma SealMoves(s: State, n: nat, rawData: bool, i: nat)
    requires i < |s.table|
    ensures var s', b := Step(s, Seal(n, rawData)), s.table[i];
      && |s'.table| == |s.table|
      && s'.table[i] == (if b.blockNumber == n && b.blockStatus == PROCESSING
                         then Block(n, L2EXECUTED, rawData, b.proof) else b)
      && s'.currentPendingBlock == s.currentPendingBlock && s'.currentProvedBlock == s.currentProvedBlock
      && s'.proverQueue == s.proverQueue && s'.operatorJobs == s.operatorJobs
  {
  }

  /** A job leaves the queue however it ends. The rows of the number it names are confirmed, with
      the proof of the first executed row, exactly if there is such a row, it has its data and
      the proving tool succeeds; no other row changes, and no cursor. */
  lemma {:induction false} ProcessMoves(s: State, proves: bool, i: nat)
    requires i < |s.table|
    ensures s.proverQueue == [] || NoneIsExecuted(s.table) || !proves
      ==> Step(s, Process(proves)).table == s.table
    ensures forall m: nat :: s.proverQueue != [] && IsFirstExecuted(s.table, m) ==>
      Step(s, Process(proves)).table[i] == Worked(s.table[i], s.proverQueue[0], s.table[m], proves)
    ensures var s' := Step(s, Process(proves));
      && |s'.table| == |s.table|
      && s'.proverQueue == (if s.proverQueue == [] then [] else s.proverQueue[1..])
      && s'.currentPendingBlock == s.currentPendingBlock && s'.currentProvedBlock == s.currentProvedBlock
      && s'.operatorJobs == s.operatorJobs
  {
    if NoneIsExecuted(s.table) { FoundNone(s.table); }
    forall m: nat | s.proverQueue != [] && IsFirstExecuted(s.table, m)
      ensures Step(s, Process(proves)).table[i] == Worked(s.table[i], s.proverQueue[0], s.table[m], proves)
    {
      FoundFirst(s.table, m);
    }
  }

  /** A row after a job that names a number and works on the block `proved`. */
  function Worked(row: Block, named: nat, proved: Block, proves: bool): Block {
    if row.blockNumber == named && proved.rawData && proves
    then Block(named, L2CONFIRMED, row.rawData, Some(proved.blockNumber)) else row
  }

  /** A list of numbers is, in order, those of the blocks of a status above a cursor. */
  ghost predicate Lists(found: seq<nat>, t: seq<Block>, st: BlockStatus, cursor: nat) {
    && (forall i, j :: 0 <= i < j < |found| ==> found[i] < found[j])
    && (forall n :: n in found <==> n > cursor && HasRow(t, n, st))
  }

  predicate HasRow(t: seq<Block>, n: nat, st: BlockStatus) {
    exists i :: 0 <= i < |t| && t[i].blockNumber == n && t[i].blockStatus == st
  }

  /** A cursor that moves to the largest number of a list, and stays when there is none. */
  ghost predicate MovesTo(cursor: nat, found: seq<nat>, next: nat) {
    if found == [] then next == cursor else next in found && forall n :: n in found ==> n <= next
  }

  lemma {:induction false} FoundLists(t: seq<Block>, st: BlockStatus, cursor: nat)
    requires Ascending(t)
    ensures Lists(Where(t, Above(st, cursor)), t, st, cursor)
    ensures MovesTo(cursor, Where(t, Above(st, cursor)), Last(Where(t, Above(st, cursor)), cursor))
  {
    var f := Above(st, cursor);
    var found := Where(t, f);
    WhereRises(t, f);
    forall n ensures n in found <==> n > cursor && HasRow(t, n, st) {
      if n in found {
        var j :| 0 <= j < |found| && found[j] == n;
        var i := WhereFrom(t, f, j);
      }
      if n > cursor && HasRow(t, n, st) {
        var i :| 0 <= i < |t| && t[i].blockNumber == n && t[i].blockStatus == st;
        var j := WhereHas(t, f, i);
      }
    }
  }

  /** A dispatch appends to the prover's queue, in order, the executed blocks above the cursor,
      each once, and moves that cursor to the last of them; nothing else changes. */
  lemma {:induction false} DispatchPendingMoves(s: State)
    requires Ascending(s.table)
    ensures var s' := Step(s, DispatchPending);
      && s.proverQueue <= s'.proverQueue
      && Lists(s'.proverQueue[|s.proverQueue|..], s.table, L2EXECUTED, s.currentPendingBlock)
      && MovesTo(s.currentPendingBlock, s'.proverQueue[|s.proverQueue|..], s'.currentPendingBlock)
      && s'.table == s.table && s'.currentProvedBlock == s.currentProvedBlock && s'.operatorJobs == s.operatorJobs
  {
    FoundLists(s.table, L2EXECUTED, s.currentPendingBlock);
    assert (s.proverQueue + Where(s.table, Above(L2EXECUTED, s.currentPendingBlock)))[|s.proverQueue|..]
        == Where(s.table, Above(L2EXECUTED, s.currentPendingBlock));
  }

  /** The same for confirmed blocks, the operator's jobs and the other cursor. */
  lemma {:induction false} DispatchProvedMoves(s: State)
    requires Ascending(s.table)
    ensures var s' := Step(s, DispatchProved);
      && s.operatorJobs <= s'.operatorJobs
      && Lists(s'.operatorJobs[|s.operatorJobs|..], s.table, L2CONFIRMED, s.currentProvedBlock)
      && MovesTo(s.currentProvedBlock, s'.operatorJobs[|s.operatorJobs|..], s'.currentProvedBlock)
      && s'.table == s.table && s'.currentPendingBlock == s.currentPendingBlock && s'.proverQueue == s.proverQueue
  {
    FoundLists(s.table, L2CONFIRMED, s.currentProvedBlock);
    assert (s.operatorJobs + Where(s.table, Above(L2CONFIRMED, s.currentProvedBlock)))[|s.operatorJobs|..]
        == Where(s.table, Above(L2CONFIRMED, s.currentProvedBlock));
  }

  lemma ListedOnce(a: seq<nat>, c: seq<nat>)
    requires (forall i, j :: 0 <= i < j < |a| ==> a[i] < a[j]) && (forall i, j :: 0 <= i < j < |c| ==> c[i] < c[j])
    requires forall n :: n in a <==> n in c
    ensures a == c
    decreases |a|
  {
    assert |c| > 0 ==> c[0] in a;
    if a != [] {
      assert a[0] in c && c[0] in a;
      forall n ensures n in a[1..] <==> n in c[1..] {
        if n in a[1..] { assert n in c && n > a[0]; }
        if n in c[1..] { assert n in a && n > c[0]; }
      }
      ListedOnce(a[1..], c[1..]);
    }
  }

  /** At most one list of numbers is such a list. */
  lemma ListsUnique(a: seq<nat>, c: seq<nat>, t: seq<Block>, st: BlockStatus, cursor: nat)
    requires Lists(a, t, st, cursor) && Lists(c, t, st, cursor)
    ensures a == c
  {
    ListedOnce(a, c);
  }

  /** A restart forgets both cursors and nothing else. */
  lemma RestartMoves(s: State)
    ensures var s' := Step(s, Restart);
      && s'.currentPendingBlock == s'.currentProvedBlock == 0
      && s'.table == s.table && s'.proverQueue == s.proverQueue && s'.operatorJobs == s.operatorJobs
  {
  }
}
