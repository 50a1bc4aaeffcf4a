/** Witnesses that the assumptions of the indexer's results can be met: every chain can be
    served by a provider, and a run with a chunk, a reorg, its recovery and the chunk of
    the new branch. */
module LedgerWitness {
  import opened Wrappers
  import opened Chain
  import opened Discovery
  import opened Ledger
  import opened Indexer
  import opened LedgerRuns
  import opened LedgerHistory
  import opened LedgerConvergence

  // ---- providers -----------------------------------------------------------------------

  ghost function Listed(logs: set<Log>): (r: seq<Log>)
    ensures forall l :: l in r <==> l in logs
  {
    if logs == {} then [] else var l :| l in logs; [l] + Listed(logs - {l})
  }

  ghost function MatchingLogs(chain: seq<Header>, q: Query): (r: seq<Log>)
    ensures Linked(chain) ==> forall l :: l in r <==> l in SegmentLogs(chain) && Matches(q, l)
  {
    if Linked(chain) then Listed(set l | l in SegmentLogs(chain) && Matches(q, l)) else []
  }

  /** Every valid chain, with any safe and finalized heads in order, has a view that serves
      it, and so do the queries that it finds too large. */
  lemma EveryChainCanBeServed(chain: seq<Header>, safe: nat, finalized: nat, tooLarge: Query -> bool)
    requires ValidChain(chain) && finalized <= safe < |chain|
    ensures exists v: View ::
              ValidView(v) && v.chain == chain && v.safe == safe && v.finalized == finalized && v.tooLarge == tooLarge
  {
    var v := View(chain, safe, finalized, q => MatchingLogs(chain, q), tooLarge);
    assert ValidView(v);
  }

  // ---- a run through a reorg --------------------------------------------------------------

  const SETTINGS := Settings(0, 10, 5)

  const BLOCK0 := Header(0, Root(0), 1, 0, [])
  const BLOCK1 := Header(1, Keccak(BLOCK0), 2, 0, [])
  const SIBLING1 := Header(1, Keccak(BLOCK0), 2, 1, [])

  const FIRST_CHUNK := Ingest([BLOCK0, BLOCK1], [], 0, 0)
  const RECOVERY := Recover(Reorg(1, Keccak(SIBLING1), 0, Keccak(BLOCK0), 1, false))
  const SECOND_CHUNK := Ingest([SIBLING1], [], 0, 0)

  const SAFE_MARK := Some(Mark(0, Keccak(BLOCK0), 1))
  const BASE_ROW := Row(Keccak(BLOCK0), Root(0), 1, Finalized)

  const AFTER_FIRST := Database(
    map[0 := BASE_ROW, 1 := Row(Keccak(BLOCK1), Keccak(BLOCK0), 2, Observed)], map[],
    Some(Mark(1, Keccak(BLOCK1), 2)), SAFE_MARK, SAFE_MARK, [])

  const AFTER_RECOVERY := Database(
    map[0 := BASE_ROW], map[],
    Some(Mark(0, Keccak(BLOCK0), ZERO_TIME)), SAFE_MARK, SAFE_MARK, [RECOVERY.record.(completed := true)])

  const AFTER_SECOND := Database(
    map[0 := BASE_ROW, 1 := Row(Keccak(SIBLING1), Keccak(BLOCK0), 2, Observed)], map[],
    Some(Mark(1, Keccak(SIBLING1), 2)), SAFE_MARK, SAFE_MARK, [RECOVERY.record.(completed := true)])

  lemma EmptyBlocksWantNothing(chunk: seq<Header>, em: Emitters)
    requires Linked(chunk) && forall i :: 0 <= i < |chunk| ==> chunk[i].entries == []
    ensures CompleteEvents(chunk, em, [])
  {
  }

  lemma FirstChunk(factory: Address)
    ensures FaithfulEffect(SETTINGS, factory, EMPTY, FIRST_CHUNK)
    ensures After(SETTINGS, EMPTY, FIRST_CHUNK) == AFTER_FIRST
  {
    var chunk := FIRST_CHUNK.chunk;
    assert LinkAt(chunk, 1);
    EmptyBlocksWantNothing(chunk, KnownEmitters(factory, EMPTY));
    assert chunk[..1] == [BLOCK0] && [BLOCK0][..0] == [];
    assert UpsertRows(map[], []) == map[];
    assert UpsertRows(map[], [BLOCK0]) == map[0 := RowOf(BLOCK0)];
    assert UpsertRows(map[], chunk) == map[0 := RowOf(BLOCK0), 1 := RowOf(BLOCK1)];
  }

  lemma Recovery(factory: Address)
    ensures FaithfulEffect(SETTINGS, factory, AFTER_FIRST, RECOVERY)
    ensures After(SETTINGS, AFTER_FIRST, RECOVERY) == AFTER_RECOVERY
  {
    assert HashAt(Keccak(SIBLING1), 1) == Some(Keccak(SIBLING1));
    assert HashAt(Keccak(SIBLING1), 0) == HashAt(Keccak(BLOCK0), 0) == Some(Keccak(BLOCK0));
    assert Descends(Keccak(BLOCK0), 0, 0);
    assert BLOCK1.extra != SIBLING1.extra;
  }

  lemma SecondChunk(factory: Address)
    ensures FaithfulEffect(SETTINGS, factory, AFTER_RECOVERY, SECOND_CHUNK)
    ensures After(SETTINGS, AFTER_RECOVERY, SECOND_CHUNK) == AFTER_SECOND
  {
    var chunk := SECOND_CHUNK.chunk;
    EmptyBlocksWantNothing(chunk, KnownEmitters(factory, AFTER_RECOVERY));
    assert chunk[..0] == [];
    assert UpsertRows(AFTER_RECOVERY.rows, []) == AFTER_RECOVERY.rows;
    assert UpsertRows(AFTER_RECOVERY.rows, chunk) == AFTER_RECOVERY.rows[1 := RowOf(SIBLING1)];
  }

  lemma OneMoreEffect(factory: Address, db: Database, effects: seq<Effect>, effect: Effect)
    requires FaithfulRun(SETTINGS, factory, db, effects)
    requires FaithfulEffect(SETTINGS, factory, Replay(SETTINGS, db, effects), effect)
    ensures FaithfulRun(SETTINGS, factory, db, effects + [effect])
    ensures Replay(SETTINGS, db, effects + [effect]) == After(SETTINGS, Replay(SETTINGS, db, effects), effect)
  {
    hide FaithfulEffect, After;
    assert (effects + [effect])[..|effects|] == effects;
  }

  const TO_RECOVERY := [FIRST_CHUNK] + [RECOVERY]
  const TO_SECOND := TO_RECOVERY + [SECOND_CHUNK]

  /** A faithful run recovers from a reorg and ingests the new branch. */
  lemma RecoveryIsReachable(factory: Address)
    ensures FaithfulRun(SETTINGS, factory, EMPTY, [FIRST_CHUNK])
    ensures Replay(SETTINGS, EMPTY, [FIRST_CHUNK]) == AFTER_FIRST
    ensures FaithfulRun(SETTINGS, factory, EMPTY, TO_RECOVERY) && ValidRun(SETTINGS, EMPTY, TO_RECOVERY)
    ensures Replay(SETTINGS, EMPTY, TO_RECOVERY) == AFTER_RECOVERY
    ensures FaithfulRun(SETTINGS, factory, EMPTY, TO_SECOND) && ValidRun(SETTINGS, EMPTY, TO_SECOND)
    ensures Replay(SETTINGS, EMPTY, TO_SECOND) == AFTER_SECOND
  {
    hide FaithfulEffect, After;
    FirstChunk(factory);
    Recovery(factory);
    SecondChunk(factory);
    assert [] + [FIRST_CHUNK] == [FIRST_CHUNK];
    OneMoreEffect(factory, EMPTY, [], FIRST_CHUNK);
    OneMoreEffect(factory, EMPTY, [FIRST_CHUNK], RECOVERY);
    OneMoreEffect(factory, EMPTY, TO_RECOVERY, SECOND_CHUNK);
    FaithfulIsValid(SETTINGS, factory, EMPTY, TO_RECOVERY);
    FaithfulIsValid(SETTINGS, factory, EMPTY, TO_SECOND);
  }

  /** After the recovery the observed mark carries the zero time and is not its stored block;
      the next chunk sets it right again. */
  lemma ObservedTimeGoesWrong()
    ensures ValidRun(SETTINGS, EMPTY, TO_RECOVERY) && RolledBackLast(TO_RECOVERY)
    ensures var db := Replay(SETTINGS, EMPTY, TO_RECOVERY);
            && OnLedger(db.rows, db.observed.value) && db.observed.value.time == ZERO_TIME
            && !MarkOfRow(db.rows, db.observed)
    ensures ValidRun(SETTINGS, EMPTY, TO_SECOND) && !RolledBackLast(TO_SECOND)
    ensures var db := Replay(SETTINGS, EMPTY, TO_SECOND);
            MarkOfRow(db.rows, db.observed)
  {
    hide ValidRun, FaithfulRun, Replay;
    RecoveryIsReachable(ZERO_ADDRESS);
  }

  lemma AfterFirstIsValid()
    ensures LedgerInvariant(SETTINGS, AFTER_FIRST)
  {
    hide ValidRun, FaithfulRun, Replay, LedgerInvariant;
    RecoveryIsReachable(ZERO_ADDRESS);
    FaithfulIsValid(SETTINGS, ZERO_ADDRESS, EMPTY, [FIRST_CHUNK]);
    ReachableInvariant(SETTINGS, [FIRST_CHUNK]);
  }

  const RECOVERY_AND_CHUNK := [RECOVERY] + [SECOND_CHUNK]

  /** Against the chain of the sibling, the recovery and the chunk after it are what the
      ledger of the first chunk calls for: two steps are left, and they reach the tip. */
  lemma ReorgIsFollowed(v: View)
    requires ValidView(v) && v.chain == [BLOCK0, SIBLING1] && v.safe == 0
    ensures LedgerInvariant(SETTINGS, AFTER_FIRST) && Continuable(SETTINGS, AFTER_FIRST, v.chain)
    ensures ValidRun(SETTINGS, AFTER_FIRST, RECOVERY_AND_CHUNK)
    ensures SettledRun(SETTINGS, v, AFTER_FIRST, RECOVERY_AND_CHUNK)
    ensures StepsLeft(SETTINGS, v, AFTER_FIRST) == 2
    ensures AtTip(SETTINGS, v, Replay(SETTINGS, AFTER_FIRST, RECOVERY_AND_CHUNK))
  {
    hide LedgerInvariant, FaithfulEffect, ValidView, AtTip, After;
    AfterFirstIsValid();
    Recovery(ZERO_ADDRESS);
    SecondChunk(ZERO_ADDRESS);
    assert [] + [RECOVERY] == [RECOVERY];
    OneMoreEffect(ZERO_ADDRESS, AFTER_FIRST, [], RECOVERY);
    OneMoreEffect(ZERO_ADDRESS, AFTER_FIRST, [RECOVERY], SECOND_CHUNK);
    FaithfulIsValid(SETTINGS, ZERO_ADDRESS, AFTER_FIRST, RECOVERY_AND_CHUNK);
    RunIsSettled(v);
    TwoStepsLeft(v);
    CompletedStepsConverge(SETTINGS, v, AFTER_FIRST, RECOVERY_AND_CHUNK);
  }

  lemma RunIsSettled(v: View)
    requires ValidView(v) && v.chain == [BLOCK0, SIBLING1] && v.safe == 0
    ensures SettledRun(SETTINGS, v, AFTER_FIRST, RECOVERY_AND_CHUNK)
  {
    hide After, Settled;
    BothSettled(v);
    Recovery(ZERO_ADDRESS);
    var one := [RECOVERY];
    assert one[..0] == [] && RECOVERY_AND_CHUNK[..1] == one;
    assert Replay(SETTINGS, AFTER_FIRST, []) == AFTER_FIRST;
    assert SettledRun(SETTINGS, v, AFTER_FIRST, one);
    assert Replay(SETTINGS, AFTER_FIRST, one) == AFTER_RECOVERY;
  }

  lemma BothSettled(v: View)
    requires ValidView(v) && v.chain == [BLOCK0, SIBLING1] && v.safe == 0
    ensures Settled(SETTINGS, v, AFTER_FIRST, RECOVERY)
    ensures Settled(SETTINGS, v, AFTER_RECOVERY, SECOND_CHUNK)
  {
    assert BLOCK1.extra != SIBLING1.extra;
    assert v.chain[1..2] == [SIBLING1];
  }

  lemma TwoStepsLeft(v: View)
    requires ValidView(v) && v.chain == [BLOCK0, SIBLING1]
    ensures StepsLeft(SETTINGS, v, AFTER_FIRST) == 2 && Continuable(SETTINGS, AFTER_FIRST, v.chain)
  {
    assert BLOCK1.extra != SIBLING1.extra;
    assert ForkHeight(AFTER_FIRST.rows, 0, v.chain, 1) == ForkHeight(AFTER_FIRST.rows, 0, v.chain, 0) == 0;
    assert Chunks(1, 10) == 1 + Chunks(-9, 10) == 1;
    assert AFTER_FIRST.rows[0].hash == Keccak(v.chain[0]);
  }
}
