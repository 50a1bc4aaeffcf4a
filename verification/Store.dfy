/** The store behind the indexer (backend/internal/store/postgres): a committed database
    and the working copy of the one open transaction. The SQL statements are modelled by
    what they do to the rows of one chain and one deployment. */
module Storage {
  import opened Wrappers
  import opened Chain
  import opened Ledger

  datatype UpsertOutcome = Changed | BlockConflict
  datatype InsertOutcome = Inserted | Duplicate | EventConflict
  datatype CommitOutcome = Committed | RolledBack | UnknownOutcome

  /** The event tables in the order in which DeleteCanonicalAbove clears them. */
  const DELETE_ORDER: seq<Entity> :=
    [CreatorFeesClaimed, ProtocolFeesClaimed, LaunchFeesClaimed, RefundCredited, RefundClaimed, Transfer,
     Mint, Burn, Swap, Sync, LaunchPauseSet, TradingPauseSet, EngineConfigured, FutureDefaultsConfigured,
     FutureTreasuryConfigured, Graduated, Trade, TokenLaunched]

  lemma EveryTableIsCleared(entity: Entity)
    ensures entity in DELETE_ORDER
  {
    match entity {
      case CreatorFeesClaimed => assert DELETE_ORDER[0] == entity;
      case ProtocolFeesClaimed => assert DELETE_ORDER[1] == entity;
      case LaunchFeesClaimed => assert DELETE_ORDER[2] == entity;
      case RefundCredited => assert DELETE_ORDER[3] == entity;
      case RefundClaimed => assert DELETE_ORDER[4] == entity;
      case Transfer => assert DELETE_ORDER[5] == entity;
      case Mint => assert DELETE_ORDER[6] == entity;
      case Burn => assert DELETE_ORDER[7] == entity;
      case Swap => assert DELETE_ORDER[8] == entity;
      case Sync => assert DELETE_ORDER[9] == entity;
      case LaunchPauseSet => assert DELETE_ORDER[10] == entity;
      case TradingPauseSet => assert DELETE_ORDER[11] == entity;
      case EngineConfigured => assert DELETE_ORDER[12] == entity;
      case FutureDefaultsConfigured => assert DELETE_ORDER[13] == entity;
      case FutureTreasuryConfigured => assert DELETE_ORDER[14] == entity;
      case Graduated => assert DELETE_ORDER[15] == entity;
      case Trade => assert DELETE_ORDER[16] == entity;
      case TokenLaunched => assert DELETE_ORDER[17] == entity;
    }
  }

  /** The events left when the tables of these entities are cleared above the ancestor. */
  function EventsNotCleared(events: map<EventKey, Event>, ancestor: int, cleared: seq<Entity>): map<EventKey, Event> {
    map k | k in events && (events[k].number <= ancestor || events[k].entity !in cleared) :: events[k]
  }

  lemma ClearTable(events: map<EventKey, Event>, ancestor: int, cleared: seq<Entity>, entity: Entity)
    ensures
      var left := EventsNotCleared(events, ancestor, cleared);
      (map k | k in left && !(left[k].entity == entity && left[k].number > ancestor) :: left[k])
        == EventsNotCleared(events, ancestor, cleared + [entity])
  {
  }

  lemma AllTablesCleared(events: map<EventKey, Event>, ancestor: int)
    ensures EventsNotCleared(events, ancestor, DELETE_ORDER) == EventsUpTo(events, ancestor)
  {
    forall k | k in events ensures events[k].entity in DELETE_ORDER {
      EveryTableIsCleared(events[k].entity);
    }
  }

  /** Any transaction may fail, and any refresh of the projections, unless the store is
      reliable. */
  class Store {
    var db: Database
    var work: Database
    const reliable: bool

    constructor (reliable: bool)
      ensures db == EMPTY && this.reliable == reliable
    {
      db := EMPTY;
      work := EMPTY;
      this.reliable := reliable;
    }

    // ---- transactions ----------------------------------------------------------------

    method Begin()
      modifies this
      ensures db == old(db) && work == db
    {
      work := db;
    }

    method Rollback()
      modifies this
      ensures db == old(db) && work == db
    {
      work := db;
    }

    /** A cancelled context rolls back; a commit that is not acknowledged may or may not
        have happened. */
    method Commit() returns (outcome: CommitOutcome)
      modifies this
      ensures outcome.Committed? ==> db == old(work)
      ensures outcome.RolledBack? ==> db == old(db)
      ensures outcome.UnknownOutcome? ==> db == old(work) || db == old(db)
      ensures reliable ==> outcome.Committed?
    {
      var failed: bool, unacknowledged: bool := *, *;
      if !reliable && failed {
        outcome := RolledBack;
      } else if !reliable && unacknowledged {
        outcome := UnknownOutcome;
        if * {
          db := work;
        }
      } else {
        db := work;
        outcome := Committed;
      }
    }

    // ---- statements of a transaction -------------------------------------------------

    method ReadState() returns (observed: Option<Mark>, safe: Option<Mark>, finalized: Option<Mark>)
      ensures observed == work.observed && safe == work.safe && finalized == work.finalized
    {
      return work.observed, work.safe, work.finalized;
    }

    /** Without an observed mark there is nothing to write. */
    method WriteState(observed: Option<Mark>, safe: Option<Mark>, finalized: Option<Mark>)
      modifies this
      ensures db == old(db)
      ensures work == if observed.None? then old(work)
                      else old(work).(observed := observed, safe := safe, finalized := finalized)
    {
      if observed.Some? {
        work := work.(observed := observed, safe := safe, finalized := finalized);
      }
    }

    method TokenIdentities() returns (identities: set<TokenIdentity>)
      ensures identities == Identities(work)
    {
      return Identities(work);
    }

    method ReadBlock(number: int) returns (row: Option<Row>)
      ensures row == if number in work.rows then Some(work.rows[number]) else None
    {
      return if number in work.rows then Some(work.rows[number]) else None;
    }

    /** Inserts, or refreshes the finality of a row with the same identity. Numbers and
        hashes are unique. */
    method UpsertIndexedBlock(number: int, row: Row) returns (outcome: UpsertOutcome)
      modifies this
      ensures db == old(db)
      ensures outcome.Changed? ==> work == old(work).(rows := old(work).rows[number := row])
      ensures outcome.BlockConflict? ==> work == old(work)
      ensures outcome.BlockConflict? <==>
                if number in old(work).rows then old(work).rows[number].(status := row.status) != row
                else exists n :: n in old(work).rows && old(work).rows[n].hash == row.hash
    {
      if number in work.rows {
        if work.rows[number].(status := row.status) != row {
          return BlockConflict;
        }
      } else if exists n :: n in work.rows && work.rows[n].hash == row.hash {
        return BlockConflict;
      }
      work := work.(rows := work.rows[number := row]);
      return Changed;
    }

    /** insertEvent: an event is stored once; the same key with another payload is an
        invariant conflict. */
    method IngestEvent(e: Event) returns (outcome: InsertOutcome)
      modifies this
      ensures db == old(db)
      ensures outcome.EventConflict? <==> InsertEvent(old(work).events, e).None?
      ensures outcome.EventConflict? <==> KeyOf(e) in old(work).events && old(work).events[KeyOf(e)] != e
      ensures outcome.EventConflict? ==> work == old(work)
      ensures outcome.Inserted? <==> KeyOf(e) !in old(work).events
      ensures !outcome.EventConflict? ==> work == old(work).(events := InsertEvent(old(work).events, e).value)
    {
      if KeyOf(e) !in work.events {
        work := work.(events := work.events[KeyOf(e) := e]);
        return Inserted;
      }
      if work.events[KeyOf(e)] == e {
        return Duplicate;
      }
      return EventConflict;
    }

    method PromoteBlocks(safe: Option<Mark>, finalized: Option<Mark>, previousSafe: int, previousFinalized: int)
      modifies this
      ensures db == old(db)
      ensures work == old(work).(rows := PromotedRows(old(work).rows, safe, finalized, previousSafe, previousFinalized))
    {
      if safe.Some? {
        work := work.(rows := RaiseRows(work.rows, safe.value.number, previousSafe, Safe));
      }
      if finalized.Some? {
        work := work.(rows := RaiseRows(work.rows, finalized.value.number, previousFinalized, Finalized));
      }
    }

    /** The highest stored block among the candidate hashes. */
    method FindCommonAncestor(candidates: seq<Hash>) returns (found: Option<int>)
      ensures found.None? ==> forall n :: n in work.rows ==> work.rows[n].hash !in candidates
      ensures found.Some? ==> found.value in work.rows && work.rows[found.value].hash in candidates
      ensures found.Some? ==> forall n :: n in work.rows && work.rows[n].hash in candidates ==> n <= found.value
    {
      found := None;
      var rest := work.rows.Items;
      while rest != {}
        invariant rest <= work.rows.Items
        invariant found.None? ==> forall i :: i in work.rows.Items - rest ==> i.1.hash !in candidates
        invariant found.Some? ==> found.value in work.rows && work.rows[found.value].hash in candidates
        invariant found.Some? ==>
          forall i :: i in work.rows.Items - rest && i.1.hash in candidates ==> i.0 <= found.value
        decreases rest
      {
        var item :| item in rest;
        if item.1.hash in candidates && (found.None? || found.value < item.0) {
          found := Some(item.0);
        }
        rest := rest - {item};
      }
      forall n | n in work.rows ensures (n, work.rows[n]) in work.rows.Items - rest {
      }
    }

    /** Clears every event table above the ancestor, then the block rows. */
    method DeleteCanonicalAbove(ancestor: int)
      modifies this
      ensures db == old(db)
      ensures work == old(work).(rows := RowsUpTo(old(work).rows, ancestor),
                                 events := EventsUpTo(old(work).events, ancestor))
    {
      ghost var before := work;
      assert EventsNotCleared(before.events, ancestor, DELETE_ORDER[..0]) == before.events;
      for i := 0 to |DELETE_ORDER|
        invariant db == old(db)
        invariant work == before.(events := EventsNotCleared(before.events, ancestor, DELETE_ORDER[..i]))
      {
        var entity := DELETE_ORDER[i];
        assert DELETE_ORDER[..i + 1] == DELETE_ORDER[..i] + [entity];
        ClearTable(before.events, ancestor, DELETE_ORDER[..i], entity);
        work := work.(events := map k | k in work.events
                  && !(work.events[k].entity == entity && work.events[k].number > ancestor) :: work.events[k]);
      }
      assert DELETE_ORDER[..|DELETE_ORDER|] == DELETE_ORDER;
      AllTablesCleared(before.events, ancestor);
      work := work.(rows := RowsUpTo(work.rows, ancestor));
    }

    method RecordReorg(record: Reorg) returns (id: int)
      modifies this
      ensures db == old(db)
      ensures work == old(work).(reorgs := old(work).reorgs + [record]) && id == |old(work).reorgs|
    {
      id := |work.reorgs|;
      work := work.(reorgs := work.reorgs + [record]);
    }

    /** Only an open record can be completed. */
    method CompleteReorg(id: int) returns (ok: bool)
      modifies this
      ensures db == old(db)
      ensures ok <==> 0 <= id < |old(work).reorgs| && !old(work).reorgs[id].completed
      ensures ok ==> work == old(work).(reorgs := old(work).reorgs[id := old(work).reorgs[id].(completed := true)])
      ensures !ok ==> work == old(work)
    {
      if !(0 <= id < |work.reorgs|) || work.reorgs[id].completed {
        return false;
      }
      work := work.(reorgs := work.reorgs[id := work.reorgs[id].(completed := true)]);
      return true;
    }

    /** The projections and aggregates, which are not modelled; refreshing them can fail. */
    method RefreshProjections() returns (ok: bool)
      ensures reliable ==> ok
    {
      ok := true;
      if !reliable {
        ok := *;
      }
    }
  }
}
