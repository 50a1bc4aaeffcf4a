/** Properties of whole runs of the indexer: what every run keeps, what no run ever
    undoes, and which fork a recovery picks. */
module LedgerRuns {
  import opened Wrappers
  import opened Chain
  import opened Ledger

  /** The ledger invariant over every run: contiguous parent-linked rows from the start
      block to the observed one, ordered watermarks that are stored blocks, finality that
      matches them, and events that belong to stored blocks. */
  lemma {:induction false} RunKeepsInvariant(s: Settings, db: Database, effects: seq<Effect>)
    requires ValidSettings(s) && LedgerInvariant(s, db) && ValidRun(s, db, effects)
    ensures LedgerInvariant(s, Replay(s, db, effects))
  {
    if effects != [] {
      var front := effects[..|effects| - 1];
      RunKeepsInvariant(s, db, front);
      EffectKeepsInvariant(s, Replay(s, db, front), effects[|effects| - 1]);
    }
  }

  lemma ReachableInvariant(s: Settings, effects: seq<Effect>)
    requires ValidSettings(s) && ValidRun(s, EMPTY, effects)
    ensures LedgerInvariant(s, Replay(s, EMPTY, effects))
  {
    EmptyInvariant(s);
    RunKeepsInvariant(s, EMPTY, effects);
  }

  // ---- the ledger and its effects, field by field -----------------------------------------

  /** What the invariant says of a ledger. The rows run from the start block to the observed
      one, each a header of its number whose parent is the row below; the marks are stored
      blocks in order; a row is finalized exactly up to the finalized mark and safe exactly
      from there to the safe one; and every event lies in a stored block. */
  lemma InvariantSpelledOut(s: Settings, db: Database)
    requires ValidSettings(s) && LedgerInvariant(s, db)
    ensures forall n :: n in db.rows <==> db.observed.Some? && s.startBlock <= n <= db.observed.value.number
    ensures forall n :: n in db.rows ==>
              && db.rows[n].hash.Keccak? && db.rows[n].hash.header.number == n
              && db.rows[n].parent == db.rows[n].hash.header.parent && db.rows[n].time == db.rows[n].hash.header.time
              && (n > s.startBlock ==> n - 1 in db.rows && db.rows[n].parent == db.rows[n - 1].hash)
    ensures db.observed.Some? ==>
              db.observed.value.number in db.rows && db.observed.value.hash == db.rows[db.observed.value.number].hash
    ensures db.safe.Some? ==>
              var n := db.safe.value.number;
              db.observed.Some? && n <= db.observed.value.number
              && n in db.rows && db.safe.value == Mark(n, db.rows[n].hash, db.rows[n].time)
    ensures db.finalized.Some? ==>
              var n := db.finalized.value.number;
              db.safe.Some? && n <= db.safe.value.number
              && n in db.rows && db.finalized.value == Mark(n, db.rows[n].hash, db.rows[n].time)
    ensures forall n :: n in db.rows ==>
              && (db.rows[n].status.Finalized? <==> db.finalized.Some? && n <= db.finalized.value.number)
              && (db.rows[n].status.Observed? <==> db.safe.None? || db.safe.value.number < n)
    ensures forall k :: k in db.events ==>
              var e := db.events[k];
              && k == EventKey(e.entity, e.txHash, e.index)
              && e.number in db.rows && e.hash == db.rows[e.number].hash && e.time == db.rows[e.number].time
              && 0 <= e.txIndex <= 2_147_483_647 && 0 <= e.index <= 2_147_483_647
              && (e.entity.TokenLaunched? ==> e.payload.LaunchPayload? && e.payload.engineVersion == 1)
  {
    forall n | n in db.rows && n > s.startBlock ensures n - 1 in db.rows && db.rows[n].parent == db.rows[n - 1].hash {
      assert RowLink(db.rows, n);
    }
  }

  lemma AppendedExactly(rows: map<int, Row>, start: int, first: int, chunk: seq<Header>)
    requires Continues(rows, start, first, chunk)
    ensures
      var all := UpsertRows(rows, chunk);
      && (forall n :: n in all <==> n in rows || exists i :: 0 <= i < |chunk| && chunk[i].number == n)
      && (forall n :: n in rows ==> all[n] == rows[n])
      && (forall i :: 0 <= i < |chunk| ==>
            chunk[i].number in all && chunk[i].number !in rows && all[chunk[i].number] == RowOf(chunk[i]))
  {
    hide UpsertRows, RowsSpan;
    AppendRows(rows, start, first, chunk);
    AppendedRows(rows, start, first, chunk);
    ContinuesSpan(rows, start, first, chunk);
    var all := UpsertRows(rows, chunk);
    forall i | 0 <= i < |chunk|
      ensures chunk[i].number in all && chunk[i].number !in rows && all[chunk[i].number] == RowOf(chunk[i])
    {
      assert HoldsRow(all, first + i, chunk[i]);
    }
    forall n | n in all && n !in rows ensures exists i :: 0 <= i < |chunk| && chunk[i].number == n {
      assert chunk[n - first].number == n;
    }
  }

  /** What a chunk changes besides the safe and finalized marks: it becomes the top of the
      rows and of the observed mark, its events are added, and nothing stored is lost. */
  lemma IngestSpelledOut(s: Settings, db: Database, effect: Effect)
    requires ValidSettings(s) && LedgerInvariant(s, db) && effect.Ingest? && ValidEffect(s, db, effect)
    ensures
      var after, chunk := After(s, db, effect), effect.chunk;
      && after.reorgs == db.reorgs
      && (forall e :: e in after.events.Values <==> e in db.events.Values || e in effect.events)
      && (forall n :: n in after.rows <==> n in db.rows || exists i :: 0 <= i < |chunk| && chunk[i].number == n)
      && (forall n :: n in db.rows ==> n in after.rows && SameIdentity(db.rows[n], after.rows[n]))
      && (forall i :: 0 <= i < |chunk| ==>
            && chunk[i].number in after.rows && chunk[i].number !in db.rows
            && SameIdentity(after.rows[chunk[i].number], Row(Keccak(chunk[i]), chunk[i].parent, chunk[i].time, Observed)))
      && after.observed == (if chunk == [] then db.observed
                            else var last := chunk[|chunk| - 1]; Some(Mark(last.number, Keccak(last), last.time)))
  {
    IngestContinues(s, db, effect);
    MarksNotNegative(s, db);
    InsertEventsAdds(db.events, effect.events);
    hide UpsertRows, SameBlocks, PromotedRows, Continues, RowsLinked, MarksOrdered, EventsHoused, StatusesMatch,
         InsertEvents;
    AppendedExactly(db.rows, s.startBlock, NextBlock(s, db), effect.chunk);
    IngestedBlocks(s, db, effect);
    var rows, after := UpsertRows(db.rows, effect.chunk), AfterIngest(s, db, effect);
    forall n
      ensures n in rows <==> n in after.rows
      ensures n in rows ==> SameIdentity(rows[n], after.rows[n])
    {
      if n in rows {
        SameBlocksRow(rows, after.rows, n);
      }
      if n in after.rows {
        SameBlocksHold(rows, after.rows, n);
      }
    }
  }

  /** What a chunk does to the safe and finalized marks: where the processed part of the
      reported head, the lower of the head and the new observed block, is at or above the
      start block, the new number is the maximum of that and the old number; otherwise the
      mark stays. A mark that moves is the stored block of its number. */
  lemma MarksSpelledOut(s: Settings, db: Database, effect: Effect)
    requires ValidSettings(s) && LedgerInvariant(s, db) && effect.Ingest? && ValidEffect(s, db, effect)
    ensures After(s, db, effect).observed.Some?
    ensures
      var after := After(s, db, effect);
      var top := after.observed.value.number;
      var reach := if effect.safeHead < top then effect.safeHead else top;
      if s.startBlock <= reach && (db.safe.None? || db.safe.value.number < reach)
      then reach in after.rows && after.safe == Some(Mark(reach, after.rows[reach].hash, after.rows[reach].time))
      else after.safe == db.safe && (reach < s.startBlock || reach <= db.safe.value.number)
    ensures
      var after := After(s, db, effect);
      var top := after.observed.value.number;
      var reach := if effect.finalizedHead < top then effect.finalizedHead else top;
      if s.startBlock <= reach && (db.finalized.None? || db.finalized.value.number < reach)
      then reach in after.rows && after.finalized == Some(Mark(reach, after.rows[reach].hash, after.rows[reach].time))
      else after.finalized == db.finalized && (reach < s.startBlock || reach <= db.finalized.value.number)
  {
    hide After, RowsLinked, MarksOrdered, StatusesMatch, EventsHoused, ValidIngest;
    IngestMovesMarks(s, db, effect);
  }

  /** What the transactions of a recovery change: the incident is on record, open after the
      first and completed after the second, with the distance from the observed block as its
      depth; the second also cuts the rows and events above the ancestor and lowers the
      observed mark to it. The safe and finalized marks stay. */
  lemma RecoverySpelledOut(s: Settings, db: Database, effect: Effect)
    requires effect.Record? || effect.Recover?
    requires ValidEffect(s, db, effect)
    ensures
      var after, record := After(s, db, effect), effect.record;
      && db.observed.Some? && record.depth == db.observed.value.number - record.ancestorNumber > 0
      && after.reorgs == db.reorgs + [Reorg(record.tipNumber, record.tipHash, record.ancestorNumber,
                                            record.ancestorHash, record.depth, effect.Recover?)]
      && after.safe == db.safe && after.finalized == db.finalized
      && (effect.Record? ==> after.rows == db.rows && after.events == db.events && after.observed == db.observed)
      && (effect.Recover? ==>
            && after.observed == Some(Mark(record.ancestorNumber, record.ancestorHash, -62_135_596_800))
            && (forall n :: n in after.rows <==> n in db.rows && n <= record.ancestorNumber)
            && (forall n :: n in after.rows ==> after.rows[n] == db.rows[n])
            && (forall k :: k in after.events <==> k in db.events && db.events[k].number <= record.ancestorNumber)
            && (forall k :: k in after.events ==> after.events[k] == db.events[k]))
  {
  }

  // ---- nothing at or below the safe mark changes -----------------------------------------

  predicate SameIdentity(a: Row, b: Row) {
    a.hash == b.hash && a.parent == b.parent && a.time == b.time
  }

  /** The safe and finalized marks only rise, and at or below the earlier safe mark every
      block row keeps its identity and every event stays, with none added. */
  ghost predicate Preserves(before: Database, after: Database) {
    && MarkNumber(before.safe) <= MarkNumber(after.safe)
    && MarkNumber(before.finalized) <= MarkNumber(after.finalized)
    && RowsPreserved(before.rows, after.rows, MarkNumber(before.safe))
    && EventsPreserved(before.events, after.events, MarkNumber(before.safe))
  }

  ghost predicate RowsPreserved(before: map<int, Row>, after: map<int, Row>, safe: int) {
    forall n :: n in before && n <= safe ==> n in after && SameIdentity(before[n], after[n])
  }

  ghost predicate EventsPreserved(before: map<EventKey, Event>, after: map<EventKey, Event>, safe: int) {
    && (forall k :: k in before && before[k].number <= safe ==> k in after && after[k] == before[k])
    && (forall k :: k in after && after[k].number <= safe ==> k in before && before[k] == after[k])
  }

  lemma IngestPreservesRows(s: Settings, db: Database, effect: Effect)
    requires ValidSettings(s) && LedgerInvariant(s, db) && effect.Ingest? && ValidIngest(s, db, effect)
    ensures RowsPreserved(db.rows, AfterIngest(s, db, effect).rows, MarkNumber(db.safe))
  {
    IngestedRows(s, db, effect);
    IngestedBlocks(s, db, effect);
    forall n | n in db.rows
      ensures n in AfterIngest(s, db, effect).rows && SameIdentity(db.rows[n], AfterIngest(s, db, effect).rows[n])
    {
      assert n in UpsertRows(db.rows, effect.chunk).Keys;
    }
  }

  lemma IngestPreservesEvents(s: Settings, db: Database, effect: Effect)
    requires ValidSettings(s) && LedgerInvariant(s, db) && effect.Ingest? && ValidIngest(s, db, effect)
    ensures EventsPreserved(db.events, AfterIngest(s, db, effect).events, MarkNumber(db.safe))
  {
    var after := AfterIngest(s, db, effect).events;
    InsertEventsAdds(db.events, effect.events);
    forall e | e in effect.events ensures e.number > MarkNumber(db.safe) {
      assert InChunk(effect.chunk, e);
    }
    forall k | k in after && after[k].number <= MarkNumber(db.safe) ensures k in db.events && db.events[k] == after[k] {
      assert after[k] in after.Values;
      var j :| j in db.events && db.events[j] == after[k];
    }
  }

  lemma EffectPreserves(s: Settings, db: Database, effect: Effect)
    requires ValidSettings(s) && LedgerInvariant(s, db) && ValidEffect(s, db, effect)
    ensures Preserves(db, After(s, db, effect))
  {
    match effect {
      case Nothing =>
      case Ingest(_, _, _, _) =>
        IngestedMarks(s, db, effect);
        IngestPreservesRows(s, db, effect);
        IngestPreservesEvents(s, db, effect);
      case Record(record) =>
      case Recover(record) =>
    }
  }

  /** Over every run, with any provider and any failures: from any moment on, the safe and
      finalized marks never fall, and no block or event at or below the safe mark of that
      moment is deleted, replaced or added. */
  lemma {:induction false} RunPreserves(s: Settings, db: Database, effects: seq<Effect>, k: nat)
    requires ValidSettings(s) && LedgerInvariant(s, db) && ValidRun(s, db, effects) && k <= |effects|
    ensures Preserves(Replay(s, db, effects[..k]), Replay(s, db, effects))
  {
    assert effects[..|effects|] == effects;
    if k < |effects| {
      var front := effects[..|effects| - 1];
      assert front[..k] == effects[..k];
      RunPreserves(s, db, front, k);
      RunKeepsInvariant(s, db, front);
      EffectPreserves(s, Replay(s, db, front), effects[|effects| - 1]);
      PreservesTransitive(Replay(s, db, effects[..k]), Replay(s, db, front), Replay(s, db, effects));
    }
  }

  lemma PreservesTransitive(a: Database, b: Database, c: Database)
    requires Preserves(a, b) && Preserves(b, c)
    ensures Preserves(a, c)
  {
  }

  // ---- the fork of a recovery -------------------------------------------------------------

  /** Walking down parent hashes from a stored block meets the stored rows. */
  lemma {:induction false} RowsByParents(rows: map<int, Row>, start: int, last: int, top: int, n: int)
    requires RowsSpan(rows, start, last) && start <= n <= top <= last
    ensures HashAt(rows[top].hash, n) == Some(rows[n].hash)
    decreases top
  {
    assert RowOfHeader(top, rows[top]);
    if n < top {
      assert RowLink(rows, top);
      RowsByParents(rows, start, last, top - 1, n);
    }
  }

  lemma {:induction false} HashesBelow(hash: Hash, top: int, middle: int, n: int)
    requires Descends(hash, top, middle) && n <= middle <= top
    ensures HashAt(hash, middle).Some? && HashAt(hash, n) == HashAt(HashAt(hash, middle).value, n)
    decreases top - middle
  {
    if middle < top {
      HashesBelow(hash.header.parent, top - 1, middle, n);
    }
  }

  lemma {:induction false} HashesAbove(hash: Hash, top: int, bottom: int, n: int)
    requires Descends(hash, top, bottom) && bottom <= n <= top
    ensures HashAt(hash, n).Some?
    decreases top - n
  {
    if n < top {
      HashesAbove(hash.header.parent, top - 1, bottom, n);
    }
  }

  /** The fork of a committed recovery is the true one: at every height that both chains
      reach, from the start block up, the stored chain and the chain of the detected tip
      hold the same block exactly up to the ancestor. */
  lemma RecoveryFindsFork(s: Settings, db: Database, record: Reorg, n: int)
    requires LedgerInvariant(s, db) && ForkRecord(s, db, record)
    requires s.startBlock <= n <= Min(record.tipNumber, db.observed.value.number)
    ensures HashAt(record.tipHash, n).Some?
    ensures HashAt(record.tipHash, n) == Some(db.rows[n].hash) <==> n <= record.ancestorNumber
  {
    var last := db.observed.value.number;
    if n <= record.ancestorNumber {
      HashesBelow(record.tipHash, record.tipNumber, record.ancestorNumber, n);
      RowsByParents(db.rows, s.startBlock, last, record.ancestorNumber, n);
    } else {
      HashesAbove(record.tipHash, record.tipNumber, record.ancestorNumber, n);
    }
  }

  /** What is left after a recovery is the part of the stored chain that the detected tip
      descends from, and all of it. */
  lemma RecoveredIsCommonPart(s: Settings, db: Database, record: Reorg, n: int)
    requires ValidSettings(s) && LedgerInvariant(s, db) && ForkRecord(s, db, record)
    requires n <= record.tipNumber
    ensures n in AfterRecover(db, record).rows <==>
              n in db.rows && HashAt(record.tipHash, n) == Some(db.rows[n].hash)
    ensures n in AfterRecover(db, record).rows ==> AfterRecover(db, record).rows[n] == db.rows[n]
  {
    if n in db.rows {
      RecoveryFindsFork(s, db, record, n);
    }
  }

  // ---- the time of the observed mark ------------------------------------------------------

  /** Whether the observed mark was last moved by a recovery. */
  predicate RolledBackLast(effects: seq<Effect>) {
    effects != [] &&
    match effects[|effects| - 1]
    case Recover(_) => true
    case Ingest(chunk, _, _, _) => chunk == [] && RolledBackLast(effects[..|effects| - 1])
    case _ => RolledBackLast(effects[..|effects| - 1])
  }

  /** The observed mark carries the time of its block exactly when the last effect that
      moved it was not a recovery: a recovery writes the zero time. */
  lemma {:induction false} ObservedTimeIsRowTime(s: Settings, effects: seq<Effect>)
    requires ValidSettings(s) && ValidRun(s, EMPTY, effects)
    ensures
      var db := Replay(s, EMPTY, effects);
      MarkOfRow(db.rows, db.observed) <==> !RolledBackLast(effects)
  {
    if effects != [] {
      var front, effect := effects[..|effects| - 1], effects[|effects| - 1];
      var before := Replay(s, EMPTY, front);
      ObservedTimeIsRowTime(s, front);
      ReachableInvariant(s, front);
      ReachableInvariant(s, effects);
      match effect {
        case Ingest(chunk, _, _, _) => IngestedTime(s, before, effect);
        case Recover(record) =>
          assert RowOfHeader(record.ancestorNumber, before.rows[record.ancestorNumber]);
        case _ =>
      }
    }
  }

  lemma IngestedTime(s: Settings, db: Database, effect: Effect)
    requires ValidSettings(s) && LedgerInvariant(s, db) && effect.Ingest? && ValidIngest(s, db, effect)
    ensures
      var after := AfterIngest(s, db, effect);
      MarkOfRow(after.rows, after.observed) <==> effect.chunk != [] || MarkOfRow(db.rows, db.observed)
  {
    IngestedRows(s, db, effect);
    IngestedBlocks(s, db, effect);
    var rows := UpsertRows(db.rows, effect.chunk);
    var after := AfterIngest(s, db, effect);
    assert after.observed.value.number in rows.Keys;
    if effect.chunk != [] {
      IngestContinues(s, db, effect);
      LastRow(db.rows, s.startBlock, NextBlock(s, db), effect.chunk);
    }
  }
}
