/** Convergence: against one fixed chain, completed steps bring the ledger to the tip
    after at most one recovery and as many chunks as the missing blocks need. */
module LedgerConvergence {
  import opened Wrappers
  import opened Chain
  import opened Ledger
  import opened Indexer
  import opened LedgerRuns

  /** The number of chunks that so many blocks need. */
  function Chunks(blocks: int, size: int): nat
    requires size > 0
    decreases blocks
  {
    if blocks <= 0 then 0 else 1 + Chunks(blocks - size, size)
  }

  lemma {:induction false} ChunksIsCeiling(blocks: int, size: int)
    requires size > 0 && blocks > 0
    ensures (Chunks(blocks, size) - 1) * size < blocks <= Chunks(blocks, size) * size
    decreases blocks
  {
    if blocks > size {
      ChunksIsCeiling(blocks - size, size);
    } else {
      assert Chunks(blocks - size, size) == 0;
    }
  }

  /** The highest height, from n down, at which the stored row is on the chain. */
  ghost function ForkHeight(rows: map<int, Row>, start: int, chain: seq<Header>, n: int): int
    decreases n - start
  {
    if n < start then start - 1
    else if n in rows && 0 <= n < |chain| && rows[n].hash == Keccak(chain[n]) then n
    else ForkHeight(rows, start, chain, n - 1)
  }

  lemma {:induction false} ForkHeightIs(rows: map<int, Row>, start: int, chain: seq<Header>, n: int, fork: int)
    requires start <= fork <= n && 0 <= fork < |chain| && fork in rows && rows[fork].hash == Keccak(chain[fork])
    requires forall m :: fork < m <= n ==> !(m in rows && 0 <= m < |chain| && rows[m].hash == Keccak(chain[m]))
    ensures ForkHeight(rows, start, chain, n) == fork
    decreases n - fork
  {
    if n > fork {
      ForkHeightIs(rows, start, chain, n - 1, fork);
    }
  }

  lemma {:induction false} ChainByParents(chain: seq<Header>, top: int, n: int)
    requires ValidChain(chain) && 0 <= n <= top < |chain|
    ensures HashAt(Keccak(chain[top]), n) == Some(Keccak(chain[n]))
    decreases top
  {
    if n < top {
      assert LinkAt(chain, top);
      ChainByParents(chain, top - 1, n);
    }
  }

  /** The completed steps still to come: one for a recovery when the observed block is not
      on the chain, then the chunks above the fork. */
  ghost function StepsLeft(s: Settings, v: View, db: Database): nat
    requires ValidSettings(s)
  {
    if AgreesAt(db.observed, v.chain) then Chunks(|v.chain| - NextBlock(s, db), s.chunkSize)
    else 1 + Chunks(|v.chain| - (ForkHeight(db.rows, s.startBlock, v.chain, MarkNumber(db.observed)) + 1), s.chunkSize)
  }

  /** The observed block is the tip of the chain, or the chain ends before the start block. */
  ghost predicate AtTip(s: Settings, v: View, db: Database)
    requires ValidSettings(s)
  {
    if |v.chain| <= s.startBlock then db.observed.None?
    else db.observed.Some? && db.observed.value.number == |v.chain| - 1
         && db.observed.value.hash == Keccak(v.chain[|v.chain| - 1])
  }

  lemma RecoveryReachesFork(s: Settings, v: View, db: Database, record: Reorg)
    requires ValidSettings(s) && LedgerInvariant(s, db) && ValidView(v) && ForkRecord(s, db, record)
    requires 0 <= db.observed.value.number < |v.chain|
    requires record.tipNumber == db.observed.value.number
    requires record.tipHash == Keccak(v.chain[db.observed.value.number])
    ensures record.ancestorNumber == ForkHeight(db.rows, s.startBlock, v.chain, db.observed.value.number)
    ensures record.ancestorHash == Keccak(v.chain[record.ancestorNumber])
  {
    var top := db.observed.value.number;
    ChainByParents(v.chain, top, record.ancestorNumber);
    forall m | record.ancestorNumber < m <= top ensures !(m in db.rows && db.rows[m].hash == Keccak(v.chain[m])) {
      ChainByParents(v.chain, top, m);
    }
    ForkHeightIs(db.rows, s.startBlock, v.chain, top, record.ancestorNumber);
  }

  lemma RecoveryProgress(s: Settings, v: View, db: Database, effect: Effect)
    requires ValidSettings(s) && LedgerInvariant(s, db) && ValidView(v) && ValidEffect(s, db, effect)
    requires !AgreesAt(db.observed, v.chain) && Settled(s, v, db, effect)
    ensures AgreesAt(After(s, db, effect).observed, v.chain)
    ensures StepsLeft(s, v, After(s, db, effect)) == StepsLeft(s, v, db) - 1
  {
    RecoveryReachesFork(s, v, db, effect.record);
  }

  lemma ChunkOfChainHead(chain: seq<Header>, from: int, chunk: seq<Header>)
    requires ValidChain(chain) && from >= 0 && ChunkOfChain(chain, from, chunk) && chunk != []
    ensures chunk[|chunk| - 1] == chain[from + |chunk| - 1]
    ensures chunk[|chunk| - 1].number == from + |chunk| - 1
  {
    assert chunk[|chunk| - 1] == chain[from..from + |chunk|][|chunk| - 1];
  }

  lemma IngestProgress(s: Settings, v: View, db: Database, effect: Effect)
    requires ValidSettings(s) && LedgerInvariant(s, db) && ValidView(v) && ValidEffect(s, db, effect)
    requires AgreesAt(db.observed, v.chain) && Settled(s, v, db, effect)
    ensures AgreesAt(After(s, db, effect).observed, v.chain)
    ensures StepsLeft(s, v, After(s, db, effect)) == if StepsLeft(s, v, db) == 0 then 0 else StepsLeft(s, v, db) - 1
  {
    var chunk := ExpectedChunk(s, db.observed, v.chain);
    var blocks := |v.chain| - NextBlock(s, db);
    assert Chunks(blocks, s.chunkSize) == 0 <==> chunk == [];
    if chunk != [] {
      assert Chunks(blocks, s.chunkSize) == 1 + Chunks(blocks - s.chunkSize, s.chunkSize);
      assert Chunks(blocks - s.chunkSize, s.chunkSize) == Chunks(blocks - |chunk|, s.chunkSize);
      ChunkOfChainHead(v.chain, NextBlock(s, db), chunk);
    }
  }

  /** Every completed step against the chain takes exactly one off the steps left. */
  lemma StepProgress(s: Settings, v: View, db: Database, effect: Effect)
    requires ValidSettings(s) && LedgerInvariant(s, db) && ValidView(v) && ValidEffect(s, db, effect)
    requires Settled(s, v, db, effect)
    ensures AgreesAt(After(s, db, effect).observed, v.chain)
    ensures StepsLeft(s, v, After(s, db, effect)) == if StepsLeft(s, v, db) == 0 then 0 else StepsLeft(s, v, db) - 1
  {
    if AgreesAt(db.observed, v.chain) {
      IngestProgress(s, v, db, effect);
    } else {
      RecoveryProgress(s, v, db, effect);
    }
  }

  /** No steps left is the tip. */
  lemma NoStepsLeftIsTip(s: Settings, v: View, db: Database)
    requires ValidSettings(s) && LedgerInvariant(s, db) && ValidView(v) && AgreesAt(db.observed, v.chain)
    ensures StepsLeft(s, v, db) == 0 <==> AtTip(s, v, db)
  {
  }

  /** An effect that commits no chunk and no recovery changes nothing that matters here. */
  lemma StaysPut(s: Settings, v: View, db: Database, effect: Effect)
    requires ValidSettings(s) && !Commits(effect)
    ensures StepsLeft(s, v, After(s, db, effect)) == StepsLeft(s, v, db)
    ensures After(s, db, effect).observed == db.observed
    ensures Continuable(s, After(s, db, effect), v.chain) <==> Continuable(s, db, v.chain)
  {
  }

  /** The effects of a run that committed a chunk or a recovery. */
  function CommitCount(effects: seq<Effect>): nat {
    if effects == [] then 0
    else CommitCount(effects[..|effects| - 1]) + if Commits(effects[|effects| - 1]) then 1 else 0
  }

  /** Convergence, whichever steps fail. After any run against one chain in which k effects
      committed, by completed steps or by failed ones whose commit happened all the same, k
      steps fewer are left, down to none; and none left is the tip. From a ledger on the
      chain the number is that of the chunks above the observed block; from one off it, one
      recovery and the chunks above the fork. Where a step may fail only for reasons of the
      environment, so may every later one. */
  lemma {:induction false} Converges(s: Settings, v: View, db: Database, effects: seq<Effect>)
    requires ValidSettings(s) && LedgerInvariant(s, db) && ValidView(v)
    requires ValidRun(s, db, effects) && OneChainRun(s, v, db, effects)
    ensures CommitCount(effects) > 0 ==> AgreesAt(Replay(s, db, effects).observed, v.chain)
    ensures CommitCount(effects) == 0 ==> Replay(s, db, effects).observed == db.observed
    ensures StepsLeft(s, v, Replay(s, db, effects))
         == if CommitCount(effects) >= StepsLeft(s, v, db) then 0 else StepsLeft(s, v, db) - CommitCount(effects)
    ensures CommitCount(effects) > 0 || AgreesAt(db.observed, v.chain) ==>
              (AtTip(s, v, Replay(s, db, effects)) <==> CommitCount(effects) >= StepsLeft(s, v, db))
    ensures Continuable(s, db, v.chain) ==> Continuable(s, Replay(s, db, effects), v.chain)
  {
    hide StepsLeft, AtTip, Settled, LedgerInvariant, ValidView, After, AgreesAt, Recoverable;
    RunKeepsInvariant(s, db, effects);
    if effects != [] {
      var front, last := effects[..|effects| - 1], effects[|effects| - 1];
      Converges(s, v, db, front);
      RunKeepsInvariant(s, db, front);
      if Commits(last) {
        StepProgress(s, v, Replay(s, db, front), last);
      } else {
        StaysPut(s, v, Replay(s, db, front), last);
      }
    }
    if CommitCount(effects) > 0 || AgreesAt(db.observed, v.chain) {
      NoStepsLeftIsTip(s, v, Replay(s, db, effects));
    }
  }

  /** Completed steps alone: after k of them against one chain, k fewer are left. */
  lemma {:induction false} CompletedStepsConverge(s: Settings, v: View, db: Database, effects: seq<Effect>)
    requires ValidSettings(s) && LedgerInvariant(s, db) && ValidView(v)
    requires ValidRun(s, db, effects) && SettledRun(s, v, db, effects)
    ensures effects != [] ==> AgreesAt(Replay(s, db, effects).observed, v.chain)
    ensures StepsLeft(s, v, Replay(s, db, effects))
         == if |effects| >= StepsLeft(s, v, db) then 0 else StepsLeft(s, v, db) - |effects|
    ensures effects != [] || AgreesAt(db.observed, v.chain) ==>
              (AtTip(s, v, Replay(s, db, effects)) <==> |effects| >= StepsLeft(s, v, db))
  {
    hide StepsLeft, AtTip, Settled, LedgerInvariant, ValidView, After;
    RunKeepsInvariant(s, db, effects);
    if effects != [] {
      var front := effects[..|effects| - 1];
      CompletedStepsConverge(s, v, db, front);
      RunKeepsInvariant(s, db, front);
      StepProgress(s, v, Replay(s, db, front), effects[|effects| - 1]);
    }
    if effects != [] || AgreesAt(db.observed, v.chain) {
      NoStepsLeftIsTip(s, v, Replay(s, db, effects));
    }
  }

  lemma {:induction false} RunPrefix(s: Settings, v: View, db: Database, effects: seq<Effect>, k: nat)
    requires ValidSettings(s) && k <= |effects|
    requires ValidRun(s, db, effects) && OneChainRun(s, v, db, effects)
    ensures ValidRun(s, db, effects[..k]) && OneChainRun(s, v, db, effects[..k])
  {
    if k == |effects| {
      assert effects[..k] == effects;
    } else {
      RunPrefix(s, v, db, effects[..|effects| - 1], k);
      assert effects[..|effects| - 1][..k] == effects[..k];
    }
  }

  /** Only the first commit of a run can be a recovery, and it is one exactly when the
      observed block is not on the chain. */
  lemma OneRecovery(s: Settings, v: View, db: Database, effects: seq<Effect>, k: nat)
    requires ValidSettings(s) && LedgerInvariant(s, db) && ValidView(v)
    requires ValidRun(s, db, effects) && OneChainRun(s, v, db, effects)
    requires k < |effects| && Commits(effects[k])
    ensures effects[k].Recover? <==> CommitCount(effects[..k]) == 0 && !AgreesAt(db.observed, v.chain)
  {
    hide StepsLeft, AtTip, LedgerInvariant, ValidView, After, ValidEffect, Continuable;
    RunPrefix(s, v, db, effects, k);
    RunPrefix(s, v, db, effects, k + 1);
    assert effects[..k + 1][..k] == effects[..k];
    assert effects[..k + 1][k] == effects[k];
    Converges(s, v, db, effects[..k]);
  }

  // ---- the converged ledger, field by field -----------------------------------------------

  lemma {:induction false} ChunksFit(blocks: int, size: int, k: nat)
    requires size > 0 && blocks <= k * size
    ensures Chunks(blocks, size) <= k
    decreases k
  {
    if blocks > 0 {
      ChunksFit(blocks - size, size, k - 1);
    }
  }

  lemma {:induction false} ForkHeightReaches(rows: map<int, Row>, start: int, chain: seq<Header>, n: int, joint: int)
    requires start <= joint <= n && joint in rows && 0 <= joint < |chain| && rows[joint].hash == Keccak(chain[joint])
    ensures ForkHeight(rows, start, chain, n) >= joint
    decreases n - joint
  {
    if n > joint {
      ForkHeightReaches(rows, start, chain, n - 1, joint);
    }
  }

  lemma {:induction false} ForkHeightFromStart(rows: map<int, Row>, start: int, chain: seq<Header>, n: int)
    ensures ForkHeight(rows, start, chain, n) >= start - 1
    decreases n - start
  {
    if n >= start {
      ForkHeightFromStart(rows, start, chain, n - 1);
    }
  }

  /** The tip is reached as soon as the commits of the run, without the one recovery if the
      observed block was off the chain, hold the blocks above any block that the ledger had in
      common with the chain. */
  lemma TipIsReached(s: Settings, v: View, db: Database, effects: seq<Effect>, joint: int)
    requires ValidSettings(s) && LedgerInvariant(s, db) && ValidView(v) && s.startBlock < |v.chain|
    requires ValidRun(s, db, effects) && OneChainRun(s, v, db, effects) && CommitCount(effects) > 0
    requires joint == s.startBlock - 1
             || (joint in db.rows && 0 <= joint < |v.chain| && db.rows[joint].hash == Keccak(v.chain[joint]))
    requires
      var onChain := db.observed.None?
                     || (db.observed.value.number < |v.chain|
                         && db.observed.value.hash == Keccak(v.chain[db.observed.value.number]));
      |v.chain| - 1 - joint <= (CommitCount(effects) - if onChain then 0 else 1) * s.chunkSize
    ensures
      var end := Replay(s, db, effects);
      && end.observed.Some? && end.observed.value.number == |v.chain| - 1
      && end.observed.value.hash == Keccak(v.chain[|v.chain| - 1])
  {
    hide ValidRun, OneChainRun, Replay, ForkHeight, Chunks, ValidView;
    Converges(s, v, db, effects);
    var commits := CommitCount(effects);
    if AgreesAt(db.observed, v.chain) {
      ChunksFit(|v.chain| - NextBlock(s, db), s.chunkSize, commits);
    } else {
      var top := db.observed.value.number;
      ForkHeightFromStart(db.rows, s.startBlock, v.chain, top);
      if joint >= s.startBlock {
        ForkHeightReaches(db.rows, s.startBlock, v.chain, top, joint);
      }
      ChunksFit(|v.chain| - (ForkHeight(db.rows, s.startBlock, v.chain, top) + 1), s.chunkSize, commits - 1);
    }
  }

  /** A mark after a commit against a chain with this head: never lower, moved only within
      the head, and not below the head once the tip is reached. */
  ghost predicate MarkFollows(s: Settings, before: Option<Mark>, after: Option<Mark>, head: int, atTip: bool) {
    && MarkNumber(before) <= MarkNumber(after)
    && (after == before || s.startBlock <= MarkNumber(after) <= head)
    && (atTip && s.startBlock <= head ==> head <= MarkNumber(after))
  }

  lemma CommitFollowsHeads(s: Settings, v: View, db: Database, effect: Effect)
    requires ValidSettings(s) && LedgerInvariant(s, db) && ValidView(v) && ValidEffect(s, db, effect)
    requires Commits(effect) && Settled(s, v, db, effect)
    ensures
      var after := After(s, db, effect);
      && MarkFollows(s, db.safe, after.safe, v.safe, MarkNumber(after.observed) == |v.chain| - 1)
      && MarkFollows(s, db.finalized, after.finalized, v.finalized, MarkNumber(after.observed) == |v.chain| - 1)
  {
    hide AfterIngest, RowsLinked, StatusesMatch, EventsHoused, ForkRecord, ValidIngest, ExpectedChunk, ValidChain;
    if effect.Ingest? {
      IngestMovesMarks(s, db, effect);
      MarksNotNegative(s, db);
    } else {
      RecoverySpelledOut(s, db, effect);
    }
  }

  lemma {:induction false} MarksFollowHeads(s: Settings, v: View, db: Database, effects: seq<Effect>)
    requires ValidSettings(s) && LedgerInvariant(s, db) && ValidView(v)
    requires ValidRun(s, db, effects) && OneChainRun(s, v, db, effects)
    ensures
      var end := Replay(s, db, effects);
      var atTip := CommitCount(effects) > 0 && MarkNumber(end.observed) == |v.chain| - 1;
      && MarkFollows(s, db.safe, end.safe, v.safe, atTip)
      && MarkFollows(s, db.finalized, end.finalized, v.finalized, atTip)
  {
    hide Settled, LedgerInvariant, ValidView, AfterIngest, AfterRecover, ValidIngest, ForkRecord;
    if effects != [] {
      var front, last := effects[..|effects| - 1], effects[|effects| - 1];
      MarksFollowHeads(s, v, db, front);
      RunKeepsInvariant(s, db, front);
      if Commits(last) {
        CommitFollowsHeads(s, v, Replay(s, db, front), last);
      }
    }
  }

  lemma ConvergedMark(
    s: Settings, rows: map<int, Row>, chain: seq<Header>, before: Option<Mark>, after: Option<Mark>, head: nat)
    requires ValidSettings(s) && head < |chain| && MarkFollows(s, before, after, head, true)
    requires before.Some? ==> before.value.number >= 0
    requires after.Some? ==> after.value.number in rows
                             && after.value == Mark(after.value.number, rows[after.value.number].hash,
                                                    rows[after.value.number].time)
    requires head in rows ==> rows[head].hash == Keccak(chain[head]) && rows[head].time == chain[head].time
    ensures after == if s.startBlock <= head && (before.None? || before.value.number <= head)
                     then Some(Mark(head, Keccak(chain[head]), chain[head].time)) else before
  {
  }

  lemma ConvergedStatus(db: Database, safe: int, finalized: int, n: int)
    requires n in db.rows && 0 <= n && finalized <= safe
    requires db.rows[n].status.Finalized? <==> db.finalized.Some? && n <= db.finalized.value.number
    requires db.rows[n].status.Observed? <==> db.safe.None? || db.safe.value.number < n
    requires if db.safe.Some? then db.safe.value.number == safe else safe < n
    requires if db.finalized.Some? then db.finalized.value.number == finalized else finalized < n
    ensures (db.rows[n].status.Finalized? <==> n <= finalized) && (db.rows[n].status.Observed? <==> safe < n)
  {
  }

  /** The ledger that a run against one chain leaves at the tip: the chain's blocks from the
      start block on, and marks that are its safe and finalized blocks, or that stay where
      they were if they were above them already or these lie below the start block. A ledger
      without marks comes to hold the finality that the chain reports, block by block. */
  lemma ConvergedLedger(s: Settings, v: View, db: Database, effects: seq<Effect>)
    requires ValidSettings(s) && LedgerInvariant(s, db) && ValidView(v) && s.startBlock < |v.chain|
    requires ValidRun(s, db, effects) && OneChainRun(s, v, db, effects) && CommitCount(effects) > 0
    requires Replay(s, db, effects).observed.Some? && Replay(s, db, effects).observed.value.number == |v.chain| - 1
    ensures
      var end := Replay(s, db, effects);
      && (forall n :: n in end.rows <==> s.startBlock <= n < |v.chain|)
      && (forall n :: n in end.rows ==> end.rows[n].hash == Keccak(v.chain[n]) && end.rows[n].time == v.chain[n].time)
      && end.safe == (if s.startBlock <= v.safe && (db.safe.None? || db.safe.value.number <= v.safe)
                      then Some(Mark(v.safe, Keccak(v.chain[v.safe]), v.chain[v.safe].time)) else db.safe)
      && end.finalized == (if s.startBlock <= v.finalized && (db.finalized.None? || db.finalized.value.number <= v.finalized)
                           then Some(Mark(v.finalized, Keccak(v.chain[v.finalized]), v.chain[v.finalized].time))
                           else db.finalized)
      && (db.safe.None? ==> forall n :: n in end.rows ==>
            && (end.rows[n].status.Finalized? <==> n <= v.finalized)
            && (end.rows[n].status.Observed? <==> v.safe < n))
  {
    hide ValidRun, OneChainRun, Replay, LedgerInvariant, RowsSpan, MarkFollows, StepsLeft, Continuable, AtTip;
    var end := Replay(s, db, effects);
    RunKeepsInvariant(s, db, effects);
    MarksFollowHeads(s, v, db, effects);
    InvariantSpelledOut(s, db);
    InvariantSpelledOut(s, end);
    Converges(s, v, db, effects);
    RowsAreChain(s, end, v.chain);
    ConvergedMark(s, end.rows, v.chain, db.safe, end.safe, v.safe);
    ConvergedMark(s, end.rows, v.chain, db.finalized, end.finalized, v.finalized);
    if db.safe.None? {
      forall n | n in end.rows
        ensures (end.rows[n].status.Finalized? <==> n <= v.finalized) && (end.rows[n].status.Observed? <==> v.safe < n)
      {
        ConvergedStatus(end, v.safe, v.finalized, n);
      }
    }
  }

  lemma RowsAreChain(s: Settings, db: Database, chain: seq<Header>)
    requires ValidSettings(s) && LedgerInvariant(s, db) && ValidChain(chain) && db.observed.Some?
    requires AgreesAt(db.observed, chain)
    ensures forall n :: n in db.rows ==>
              0 <= n < |chain| && db.rows[n].hash == Keccak(chain[n]) && db.rows[n].time == chain[n].time
  {
    forall n | n in db.rows
      ensures 0 <= n < |chain| && db.rows[n].hash == Keccak(chain[n]) && db.rows[n].time == chain[n].time
    {
      SpanOnChain(db.rows, s.startBlock, db.observed.value.number, chain, n);
      assert RowOfHeader(n, db.rows[n]);
    }
  }
}
