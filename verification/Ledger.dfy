/** The persisted ledger of the indexer as a value: block rows, events, watermarks and
    reorg records, the effects that a step may commit, and the invariant they keep. */
module Ledger {
  import opened Wrappers
  import opened Chain
  import opened Discovery

  /** The zero time.Time, in Unix seconds. */
  const ZERO_TIME: int := -62_135_596_800

  datatype Settings = Settings(startBlock: int, chunkSize: int, searchDepth: int)

  const MAX_SEARCH_DEPTH: int := 100_000

  predicate ValidSettings(s: Settings) {
    0 <= s.startBlock <= MAX_INT64 && 0 < s.chunkSize && 0 < s.searchDepth <= MAX_SEARCH_DEPTH
  }

  datatype Status = Observed | Safe | Finalized

  /** A row of indexed_blocks; its number is its key. */
  datatype Row = Row(hash: Hash, parent: Hash, time: int, status: Status)

  /** A watermark of sync_state. */
  datatype Mark = Mark(number: int, hash: Hash, time: int)

  /** The primary key of an event within the table of its entity. */
  datatype EventKey = EventKey(entity: Entity, txHash: int, index: int)

  datatype Event = Event(
    entity: Entity, number: int, hash: Hash, time: int, txIndex: int, txHash: int, index: int,
    address: Address, payload: Payload)

  datatype Reorg = Reorg(
    tipNumber: int, tipHash: Hash, ancestorNumber: int, ancestorHash: Hash, depth: int, completed: bool)

  datatype Database = Database(
    rows: map<int, Row>,
    events: map<EventKey, Event>,
    observed: Option<Mark>,
    safe: Option<Mark>,
    finalized: Option<Mark>,
    reorgs: seq<Reorg>)

  const EMPTY := Database(map[], map[], None, None, None, [])

  function KeyOf(e: Event): EventKey {
    EventKey(e.entity, e.txHash, e.index)
  }

  function EventOf(log: Log): Event
    requires HasEntity(log.entry) && log.blockHash.Keccak?
  {
    Event(EntityOf(log.entry), log.number, log.blockHash, log.blockHash.header.time, log.entry.txIndex,
          log.entry.txHash, log.entry.index, log.entry.address, log.entry.payload)
  }

  function RowOf(h: Header): Row {
    Row(Keccak(h), h.parent, h.time, Observed)
  }

  function MarkOf(number: int, row: Row): Mark {
    Mark(number, row.hash, row.time)
  }

  function NextAfter(s: Settings, observed: Option<Mark>): int {
    if observed.Some? then observed.value.number + 1 else s.startBlock
  }

  function NextBlock(s: Settings, db: Database): int {
    NextAfter(s, db.observed)
  }

  /** The token identities of the stored launches, as the next step reads them. */
  datatype TokenIdentity = TokenIdentity(token: Address, curve: Address, pair: Address, engineVersion: int)

  function IdentityOf(e: Event): TokenIdentity
    requires e.payload.LaunchPayload?
  {
    TokenIdentity(e.payload.token, e.payload.curve, e.payload.pair, e.payload.engineVersion)
  }

  function Identities(db: Database): set<TokenIdentity> {
    set e | e in db.events.Values && e.entity.TokenLaunched? && e.payload.LaunchPayload? :: IdentityOf(e)
  }

  function EmittersFor(factory: Address, identities: set<TokenIdentity>): Emitters {
    Emitters(factory,
             set i | i in identities :: i.curve,
             set i | i in identities :: i.token,
             set i | i in identities :: i.pair)
  }

  function KnownEmitters(factory: Address, db: Database): Emitters {
    EmittersFor(factory, Identities(db))
  }

  // ---- effects ---------------------------------------------------------------------

  /** What one step leaves committed. `Ingest` carries the chunk, its events and the
      safe and finalized head numbers the provider reported; `Record` is a recovery
      that stopped after its first transaction. */
  datatype Effect =
    | Nothing
    | Ingest(chunk: seq<Header>, events: seq<Event>, safeHead: int, finalizedHead: int)
    | Record(record: Reorg)
    | Recover(record: Reorg)

  function UpsertRows(rows: map<int, Row>, chunk: seq<Header>): map<int, Row> {
    if chunk == [] then rows
    else
      var last := chunk[|chunk| - 1];
      UpsertRows(rows, chunk[..|chunk| - 1])[last.number := RowOf(last)]
  }

  /** The observed mark once the chunk is in. */
  function ChunkHead(observed: Option<Mark>, chunk: seq<Header>): Option<Mark> {
    if chunk == [] then observed
    else Some(MarkOf(chunk[|chunk| - 1].number, RowOf(chunk[|chunk| - 1])))
  }

  /** insertEvent: None is the invariant conflict. */
  function InsertEvent(events: map<EventKey, Event>, e: Event): Option<map<EventKey, Event>> {
    if KeyOf(e) !in events then Some(events[KeyOf(e) := e])
    else if events[KeyOf(e)] == e then Some(events)
    else None
  }

  function InsertEvents(events: map<EventKey, Event>, added: seq<Event>): Option<map<EventKey, Event>> {
    if added == [] then Some(events)
    else
      var before := InsertEvents(events, added[..|added| - 1]);
      if before.None? then None else InsertEvent(before.value, added[|added| - 1])
  }

  /** A watermark moves to the processed part of the reported head, and only upwards. */
  function Promoted(rows: map<int, Row>, mark: Option<Mark>, start: int, observed: int, head: int): Option<Mark> {
    var number := Min(head, observed);
    if number < start || (mark.Some? && number <= mark.value.number) || number !in rows then mark
    else Some(MarkOf(number, rows[number]))
  }

  function MarkNumber(mark: Option<Mark>): int {
    if mark.Some? then mark.value.number else -1
  }

  function Raise(row: Row, status: Status): Row {
    row.(status := if status.Safe? && row.status.Finalized? then Finalized else status)
  }

  /** PromoteIndexedBlocks on the rows in (above, upTo]. */
  function RaiseRows(rows: map<int, Row>, upTo: int, above: int, status: Status): map<int, Row> {
    map n | n in rows :: if above < n <= upTo then Raise(rows[n], status) else rows[n]
  }

  /** PromoteBlocks. */
  function PromotedRows(
    rows: map<int, Row>, safe: Option<Mark>, finalized: Option<Mark>, previousSafe: int, previousFinalized: int)
    : map<int, Row>
  {
    var afterSafe := if safe.Some? then RaiseRows(rows, safe.value.number, previousSafe, Safe) else rows;
    if finalized.Some? then RaiseRows(afterSafe, finalized.value.number, previousFinalized, Finalized) else afterSafe
  }

  function RowsUpTo(rows: map<int, Row>, n: int): map<int, Row> {
    map k | k in rows && k <= n :: rows[k]
  }

  function EventsUpTo(events: map<EventKey, Event>, n: int): map<EventKey, Event> {
    map k | k in events && events[k].number <= n :: events[k]
  }

  function AfterIngest(s: Settings, db: Database, effect: Effect): Database
    requires effect.Ingest?
  {
    var rows := UpsertRows(db.rows, effect.chunk);
    var observed := ChunkHead(db.observed, effect.chunk);
    var events := InsertEvents(db.events, effect.events);
    var safe := Promoted(rows, db.safe, s.startBlock, MarkNumber(observed), effect.safeHead);
    var finalized := Promoted(rows, db.finalized, s.startBlock, MarkNumber(observed), effect.finalizedHead);
    Database(PromotedRows(rows, safe, finalized, MarkNumber(db.safe), MarkNumber(db.finalized)),
             if events.Some? then events.value else db.events,
             observed, safe, finalized, db.reorgs)
  }

  function AfterRecover(db: Database, record: Reorg): Database {
    db.(rows := RowsUpTo(db.rows, record.ancestorNumber),
        events := EventsUpTo(db.events, record.ancestorNumber),
        observed := Some(Mark(record.ancestorNumber, record.ancestorHash, ZERO_TIME)),
        reorgs := db.reorgs + [record.(completed := true)])
  }

  function After(s: Settings, db: Database, effect: Effect): Database {
    match effect
    case Nothing => db
    case Ingest(_, _, _, _) => AfterIngest(s, db, effect)
    case Record(record) => db.(reorgs := db.reorgs + [record])
    case Recover(record) => AfterRecover(db, record)
  }

  /** The ledger after a run of effects, in order. */
  function Replay(s: Settings, db: Database, effects: seq<Effect>): Database {
    if effects == [] then db
    else After(s, Replay(s, db, effects[..|effects| - 1]), effects[|effects| - 1])
  }

  /** A run: every effect is valid where it happens. */
  ghost predicate ValidRun(s: Settings, db: Database, effects: seq<Effect>) {
    effects != [] ==>
      && ValidRun(s, db, effects[..|effects| - 1])
      && ValidEffect(s, Replay(s, db, effects[..|effects| - 1]), effects[|effects| - 1])
  }

  /** Every parent hash from block n with this hash down to block m is a header of the
      expected number. */
  predicate Descends(hash: Hash, n: int, m: int)
    decreases hash
  {
    hash.Keccak? && hash.header.number == n && (n <= m || Descends(hash.header.parent, n - 1, m))
  }

  /** The record names the true fork of the stored chain and the chain of its tip, at or
      above the floor, below the observed mark and within the search depth. */
  ghost predicate ForkRecord(s: Settings, db: Database, r: Reorg) {
    && db.observed.Some?
    && s.startBlock <= r.ancestorNumber <= r.tipNumber
    && (db.safe.Some? ==> db.safe.value.number <= r.ancestorNumber)
    && r.ancestorNumber < db.observed.value.number
    && r.depth == db.observed.value.number - r.ancestorNumber
    && r.tipNumber - r.ancestorNumber < s.searchDepth
    && Descends(r.tipHash, r.tipNumber, r.ancestorNumber)
    && r.ancestorNumber in db.rows
    && db.rows[r.ancestorNumber].hash == r.ancestorHash
    && HashAt(r.tipHash, r.ancestorNumber) == Some(r.ancestorHash)
    && (forall n :: r.ancestorNumber < n <= r.tipNumber && n in db.rows ==>
          HashAt(r.tipHash, n) != Some(db.rows[n].hash))
  }

  ghost predicate InChunk(chunk: seq<Header>, e: Event) {
    exists i :: 0 <= i < |chunk| && e.number == chunk[i].number && e.hash == Keccak(chunk[i]) && e.time == chunk[i].time
  }

  /** What the checks before and in the decoder leave: indices of 31 bits, and launches of
      the supported engine version. */
  predicate Decodable(e: Event) {
    && 0 <= e.txIndex <= MAX_INT32 && 0 <= e.index <= MAX_INT32
    && (e.entity.TokenLaunched? ==> e.payload.LaunchPayload? && e.payload.engineVersion == ENGINE_VERSION)
  }

  ghost predicate ValidIngest(s: Settings, db: Database, effect: Effect)
    requires effect.Ingest?
  {
    var chunk := effect.chunk;
    && (db.observed.Some? || chunk != [])
    && |chunk| <= s.chunkSize
    && Linked(chunk)
    && (chunk != [] ==> chunk[0].number == NextBlock(s, db))
    && (chunk != [] && db.observed.Some? ==> chunk[0].parent == db.observed.value.hash)
    && (forall e :: e in effect.events ==> InChunk(chunk, e) && Decodable(e))
    && InsertEvents(db.events, effect.events).Some?
    && 0 <= effect.finalizedHead <= effect.safeHead
  }

  ghost predicate ValidEffect(s: Settings, db: Database, effect: Effect) {
    match effect
    case Nothing => true
    case Ingest(_, _, _, _) => ValidIngest(s, db, effect)
    case Record(record) => ForkRecord(s, db, record) && !record.completed
    case Recover(record) => ForkRecord(s, db, record) && !record.completed
  }

  // ---- the invariant ---------------------------------------------------------------

  predicate RowOfHeader(n: int, row: Row) {
    && row.hash.Keccak? && ValidHeader(row.hash.header)
    && row.hash.header.number == n
    && row.parent == row.hash.header.parent
    && row.time == row.hash.header.time
  }

  predicate RowLink(rows: map<int, Row>, n: int) {
    n in rows && n - 1 in rows ==> rows[n].parent == rows[n - 1].hash
  }

  /** Contiguous, parent-linked rows of valid headers from one block to another. */
  ghost predicate RowsSpan(rows: map<int, Row>, start: int, last: int) {
    && (forall n :: n in rows <==> start <= n <= last)
    && (forall n :: n in rows ==> RowOfHeader(n, rows[n]))
    && (forall n :: RowLink(rows, n))
  }

  ghost predicate RowsLinked(s: Settings, db: Database) {
    && RowsSpan(db.rows, s.startBlock, NextBlock(s, db) - 1)
    && s.startBlock <= NextBlock(s, db)
    && (db.observed.Some? ==> s.startBlock <= db.observed.value.number)
  }

  predicate OnLedger(rows: map<int, Row>, mark: Mark) {
    mark.number in rows && mark.hash == rows[mark.number].hash
  }

  /** A safe or finalized mark is a stored block, time included. */
  predicate MarkOfRow(rows: map<int, Row>, mark: Option<Mark>) {
    mark.Some? ==> mark.value.number in rows && mark.value == MarkOf(mark.value.number, rows[mark.value.number])
  }

  /** finalized <= safe <= observed, and each mark is a stored block. */
  predicate MarksOrdered(db: Database) {
    && (db.observed.Some? ==> OnLedger(db.rows, db.observed.value))
    && MarkOfRow(db.rows, db.safe)
    && MarkOfRow(db.rows, db.finalized)
    && (db.safe.Some? ==> db.observed.Some?)
    && (db.finalized.Some? ==> db.safe.Some?)
    && MarkNumber(db.finalized) <= MarkNumber(db.safe) <= MarkNumber(db.observed)
  }

  function StatusFor(safe: int, finalized: int, n: int): Status {
    if n <= finalized then Finalized else if n <= safe then Safe else Observed
  }

  /** The finality column of every row is what the watermarks say. */
  ghost predicate StatusesMatch(db: Database) {
    forall n :: n in db.rows ==> db.rows[n].status == StatusFor(MarkNumber(db.safe), MarkNumber(db.finalized), n)
  }

  /** Every event carries its own key and belongs to a stored block. */
  ghost predicate EventsHoused(db: Database) {
    forall k :: k in db.events ==>
      KeyOf(db.events[k]) == k && Housed(db.rows, db.events[k]) && Decodable(db.events[k])
  }

  ghost predicate LedgerInvariant(s: Settings, db: Database) {
    && RowsLinked(s, db)
    && MarksOrdered(db)
    && StatusesMatch(db)
    && EventsHoused(db)
  }

  lemma EmptyInvariant(s: Settings)
    ensures LedgerInvariant(s, EMPTY)
  {
  }

  lemma {:induction false} InsertEventsAdds(events: map<EventKey, Event>, added: seq<Event>)
    requires forall k :: k in events ==> KeyOf(events[k]) == k
    requires InsertEvents(events, added).Some?
    ensures
      var after := InsertEvents(events, added).value;
      && (forall k :: k in after ==> KeyOf(after[k]) == k)
      && (forall k :: k in events ==> k in after && after[k] == events[k])
      && (forall e :: e in after.Values <==> e in events.Values || e in added)
  {
    if added != [] {
      var front, last := added[..|added| - 1], added[|added| - 1];
      assert added == front + [last];
      InsertEventsAdds(events, front);
      var before := InsertEvents(events, front).value;
      var after := InsertEvents(events, added).value;
      assert KeyOf(last) in after && after[KeyOf(last)] == last;
      forall e ensures e in after.Values <==> e in before.Values || e == last {
        if e in after.Values {
          var k :| k in after && after[k] == e;
          assert k == KeyOf(last) || (k in before && before[k] == e);
        }
        if e in before.Values {
          var k :| k in before && before[k] == e;
          assert k in after && after[k] == e;
        }
      }
    }
  }

  lemma AppendRow(rows: map<int, Row>, start: int, h: Header)
    requires RowsSpan(rows, start, h.number - 1) && start <= h.number && ValidHeader(h)
    requires start < h.number ==> h.parent == rows[h.number - 1].hash
    ensures RowsSpan(rows[h.number := RowOf(h)], start, h.number)
  {
    var after := rows[h.number := RowOf(h)];
    forall n ensures RowLink(after, n) {
      assert RowLink(rows, n);
    }
  }

  /** A chunk that continues the rows of this span. */
  ghost predicate Continues(rows: map<int, Row>, start: int, first: int, chunk: seq<Header>) {
    && RowsSpan(rows, start, first - 1) && start <= first && Linked(chunk)
    && (chunk != [] ==> chunk[0].number == first)
    && (chunk != [] && start < first ==> chunk[0].parent == rows[first - 1].hash)
  }

  predicate HoldsRow(rows: map<int, Row>, n: int, h: Header) {
    n in rows && rows[n] == RowOf(h)
  }

  lemma ContinuesSpan(rows: map<int, Row>, start: int, first: int, chunk: seq<Header>)
    requires Continues(rows, start, first, chunk)
    ensures RowsSpan(rows, start, first - 1) && start <= first
    ensures forall n :: n in rows ==> n < first
  {
  }

  lemma FrontContinues(rows: map<int, Row>, start: int, first: int, chunk: seq<Header>)
    requires Continues(rows, start, first, chunk) && chunk != []
    ensures
      var front, last := chunk[..|chunk| - 1], chunk[|chunk| - 1];
      && Continues(rows, start, first, front)
      && ValidHeader(last) && last.number == first + |front|
      && last.parent == (if front != [] then Keccak(front[|front| - 1])
                         else if start < first then rows[first - 1].hash else last.parent)
  {
    LinkedSlice(chunk, 0, |chunk| - 1);
    if |chunk| > 1 {
      assert LinkAt(chunk, |chunk| - 1);
    }
  }

  lemma {:induction false} AppendRows(rows: map<int, Row>, start: int, first: int, chunk: seq<Header>)
    requires Continues(rows, start, first, chunk)
    ensures RowsSpan(UpsertRows(rows, chunk), start, first + |chunk| - 1)
    ensures forall n :: n in rows ==> n in UpsertRows(rows, chunk) && UpsertRows(rows, chunk)[n] == rows[n]
    ensures forall i :: 0 <= i < |chunk| ==> HoldsRow(UpsertRows(rows, chunk), first + i, chunk[i])
  {
    hide Continues, RowsSpan, Linked;
    ContinuesSpan(rows, start, first, chunk);
    if chunk != [] {
      var front, last := chunk[..|chunk| - 1], chunk[|chunk| - 1];
      FrontContinues(rows, start, first, chunk);
      AppendRows(rows, start, first, front);
      AppendRow(UpsertRows(rows, front), start, last);
      forall i | 0 <= i < |chunk| ensures HoldsRow(UpsertRows(rows, chunk), first + i, chunk[i]) {
        if i < |front| {
          assert HoldsRow(UpsertRows(rows, front), first + i, front[i]);
        }
      }
    } else {
      assert UpsertRows(rows, chunk) == rows && first + |chunk| - 1 == first - 1;
    }
  }

  lemma AppendedRows(rows: map<int, Row>, start: int, first: int, chunk: seq<Header>)
    requires Continues(rows, start, first, chunk)
    ensures forall n :: n in UpsertRows(rows, chunk) && n !in rows ==>
              0 <= n - first < |chunk| && UpsertRows(rows, chunk)[n] == RowOf(chunk[n - first])
  {
    hide Continues, RowsSpan, UpsertRows;
    AppendRows(rows, start, first, chunk);
    AppendedSpan(rows, start, first, chunk);
    forall n | n in UpsertRows(rows, chunk) && n !in rows
      ensures 0 <= n - first < |chunk| && UpsertRows(rows, chunk)[n] == RowOf(chunk[n - first])
    {
      assert HoldsRow(UpsertRows(rows, chunk), first + (n - first), chunk[n - first]);
    }
  }

  lemma AppendedSpan(rows: map<int, Row>, start: int, first: int, chunk: seq<Header>)
    requires Continues(rows, start, first, chunk)
    ensures forall n :: n in UpsertRows(rows, chunk) && n !in rows ==> first <= n < first + |chunk|
  {
    hide UpsertRows;
    AppendRows(rows, start, first, chunk);
  }

  lemma LastRow(rows: map<int, Row>, start: int, first: int, chunk: seq<Header>)
    requires Continues(rows, start, first, chunk) && chunk != []
    ensures first + |chunk| - 1 in UpsertRows(rows, chunk)
    ensures UpsertRows(rows, chunk)[first + |chunk| - 1] == RowOf(chunk[|chunk| - 1])
  {
    hide Continues, RowsSpan, UpsertRows;
    AppendRows(rows, start, first, chunk);
    assert HoldsRow(UpsertRows(rows, chunk), first + (|chunk| - 1), chunk[|chunk| - 1]);
  }

  lemma IngestContinues(s: Settings, db: Database, effect: Effect)
    requires RowsLinked(s, db) && MarksOrdered(db) && effect.Ingest? && ValidIngest(s, db, effect)
    ensures Continues(db.rows, s.startBlock, NextBlock(s, db), effect.chunk)
  {
  }

  /** The rows after an ingest: the old ones untouched, the chunk appended up to the new
      observed block. */
  lemma IngestedRows(s: Settings, db: Database, effect: Effect)
    requires ValidSettings(s) && RowsLinked(s, db) && MarksOrdered(db) && effect.Ingest? && ValidIngest(s, db, effect)
    ensures
      var rows := UpsertRows(db.rows, effect.chunk);
      var observed := ChunkHead(db.observed, effect.chunk);
      && observed.Some? && s.startBlock <= observed.value.number
      && observed.value.number == NextBlock(s, db) + |effect.chunk| - 1
      && RowsSpan(rows, s.startBlock, observed.value.number)
      && (forall n :: n in db.rows ==> n in rows && rows[n] == db.rows[n])
      && rows[observed.value.number].hash == observed.value.hash
  {
    var first := NextBlock(s, db);
    IngestContinues(s, db, effect);
    AppendRows(db.rows, s.startBlock, first, effect.chunk);
    if effect.chunk != [] {
      LastRow(db.rows, s.startBlock, first, effect.chunk);
    }
  }

  /** Promotion changes nothing but statuses. */
  lemma PromotedRowsMeaning(
    rows: map<int, Row>, safe: Option<Mark>, finalized: Option<Mark>, previousSafe: int, previousFinalized: int)
    requires previousSafe >= -1 && previousFinalized >= -1
    ensures
      var after := PromotedRows(rows, safe, finalized, previousSafe, previousFinalized);
      && after.Keys == rows.Keys
      && forall n :: n in rows ==>
           after[n] == rows[n].(status :=
             if previousFinalized < n <= MarkNumber(finalized) then Finalized
             else if previousSafe < n <= MarkNumber(safe) && !rows[n].status.Finalized? then Safe
             else rows[n].status)
  {
  }

  lemma PromotedMark(rows: map<int, Row>, mark: Option<Mark>, start: int, observed: int, head: int)
    requires 0 <= start <= observed && (forall n :: n in rows <==> start <= n <= observed)
    requires MarkOfRow(rows, mark)
    ensures
      var after := Promoted(rows, mark, start, observed, head);
      && MarkOfRow(rows, after)
      && MarkNumber(mark) <= MarkNumber(after) <= observed
      && (after.Some? <==> mark.Some? || head >= start)
      && (Min(head, observed) >= start ==> MarkNumber(after) >= Min(head, observed))
      && (MarkNumber(after) == MarkNumber(mark) || MarkNumber(after) == Min(head, observed))
  {
  }

  lemma IngestedMarks(s: Settings, db: Database, effect: Effect)
    requires ValidSettings(s) && RowsLinked(s, db) && MarksOrdered(db) && effect.Ingest? && ValidIngest(s, db, effect)
    ensures
      var rows := UpsertRows(db.rows, effect.chunk);
      var after := AfterIngest(s, db, effect);
      && after.observed.Some? && OnLedger(rows, after.observed.value)
      && MarkOfRow(rows, after.safe) && MarkOfRow(rows, after.finalized)
      && (after.finalized.Some? ==> after.safe.Some?)
      && MarkNumber(after.finalized) <= MarkNumber(after.safe) <= MarkNumber(after.observed)
      && MarkNumber(db.safe) <= MarkNumber(after.safe) && MarkNumber(db.finalized) <= MarkNumber(after.finalized)
  {
    IngestedRows(s, db, effect);
    var rows := UpsertRows(db.rows, effect.chunk);
    var observed := MarkNumber(ChunkHead(db.observed, effect.chunk));
    PromotedMark(rows, db.safe, s.startBlock, observed, effect.safeHead);
    PromotedMark(rows, db.finalized, s.startBlock, observed, effect.finalizedHead);
  }

  /** A watermark has moved to the reported head, or to the observed block if that is lower,
      if this is a stored block above it, and has stayed otherwise. */
  predicate MarkMoved(
    before: Option<Mark>, after: Option<Mark>, rows: map<int, Row>, start: int, observed: int, head: int)
  {
    var reach := if head < observed then head else observed;
    if reach < start || (before.Some? && reach <= before.value.number) then after == before
    else reach in rows && after == Some(Mark(reach, rows[reach].hash, rows[reach].time))
  }

  ghost predicate MarksMoved(s: Settings, before: Database, after: Database, safeHead: int, finalizedHead: int) {
    && after.observed.Some?
    && var top := after.observed.value.number;
    && MarkMoved(before.safe, after.safe, after.rows, s.startBlock, top, safeHead)
    && MarkMoved(before.finalized, after.finalized, after.rows, s.startBlock, top, finalizedHead)
  }

  lemma PromotedIs(rows: map<int, Row>, after: map<int, Row>, mark: Option<Mark>, start: int, observed: int, head: int)
    requires SameBlocks(rows, after) && forall n :: start <= n <= observed ==> n in rows
    ensures
      var reach := if head < observed then head else observed;
      if reach < start || (mark.Some? && reach <= mark.value.number) then Promoted(rows, mark, start, observed, head) == mark
      else reach in after && Promoted(rows, mark, start, observed, head)
                               == Some(Mark(reach, after[reach].hash, after[reach].time))
  {
    var reach := Min(head, observed);
    if reach >= start {
      SameBlocksRow(rows, after, reach);
    }
  }

  /** What a chunk does to the safe and finalized marks. */
  lemma IngestMovesMarks(s: Settings, db: Database, effect: Effect)
    requires ValidSettings(s) && RowsLinked(s, db) && MarksOrdered(db) && effect.Ingest? && ValidIngest(s, db, effect)
    ensures MarksMoved(s, db, After(s, db, effect), effect.safeHead, effect.finalizedHead)
  {
    hide UpsertRows, RowsLinked, MarksOrdered, ValidIngest, ValidSettings, RowsSpan, SameBlocks, PromotedRows, Promoted;
    IngestedSpan(s, db, effect);
    MarksNotNegative(s, db);
    IngestedBlocks(s, db, effect);
    var rows, after := UpsertRows(db.rows, effect.chunk), AfterIngest(s, db, effect);
    PromotedIs(rows, after.rows, db.safe, s.startBlock, after.observed.value.number, effect.safeHead);
    PromotedIs(rows, after.rows, db.finalized, s.startBlock, after.observed.value.number, effect.finalizedHead);
  }

  lemma SameBlocksRow(before: map<int, Row>, after: map<int, Row>, n: int)
    requires SameBlocks(before, after) && n in before
    ensures n in after && after[n] == before[n].(status := after[n].status)
  {
    assert n in before.Keys;
  }

  /** All numbers from the start block to the new observed one are stored. */
  lemma IngestedSpan(s: Settings, db: Database, effect: Effect)
    requires ValidSettings(s) && RowsLinked(s, db) && MarksOrdered(db) && effect.Ingest? && ValidIngest(s, db, effect)
    ensures
      var observed := ChunkHead(db.observed, effect.chunk);
      observed.Some? && forall n :: s.startBlock <= n <= observed.value.number ==> n in UpsertRows(db.rows, effect.chunk)
  {
    IngestedRows(s, db, effect);
  }

  /** The same blocks, with statuses that may differ. */
  ghost predicate SameBlocks(before: map<int, Row>, after: map<int, Row>) {
    before.Keys == after.Keys && forall n :: n in before ==> after[n] == before[n].(status := after[n].status)
  }

  lemma SameBlocksSpan(before: map<int, Row>, after: map<int, Row>, start: int, last: int)
    requires SameBlocks(before, after) && RowsSpan(before, start, last)
    ensures RowsSpan(after, start, last)
  {
    forall n ensures n in after <==> n in before {
      assert n in after.Keys <==> n in before.Keys;
    }
    forall n ensures RowLink(after, n) {
      assert RowLink(before, n);
    }
  }

  lemma SameBlocksMark(before: map<int, Row>, after: map<int, Row>, mark: Option<Mark>)
    requires SameBlocks(before, after)
    ensures MarkOfRow(before, mark) ==> MarkOfRow(after, mark)
    ensures mark.Some? && OnLedger(before, mark.value) ==> OnLedger(after, mark.value)
  {
    if mark.Some? {
      assert mark.value.number in before.Keys <==> mark.value.number in after.Keys;
    }
  }

  ghost predicate Housed(rows: map<int, Row>, e: Event) {
    && e.number in rows && e.hash == rows[e.number].hash && e.time == rows[e.number].time
  }

  lemma SameBlocksHouse(before: map<int, Row>, after: map<int, Row>, e: Event)
    requires SameBlocks(before, after) && Housed(before, e)
    ensures Housed(after, e)
  {
    assert e.number in before.Keys;
  }

  lemma IngestedBlocks(s: Settings, db: Database, effect: Effect)
    requires db.safe.Some? ==> db.safe.value.number >= 0
    requires db.finalized.Some? ==> db.finalized.value.number >= 0
    requires effect.Ingest?
    ensures
      var rows := UpsertRows(db.rows, effect.chunk);
      var after := AfterIngest(s, db, effect);
      && SameBlocks(rows, after.rows)
      && forall n :: n in rows ==>
           after.rows[n].status ==
             if MarkNumber(db.finalized) < n <= MarkNumber(after.finalized) then Finalized
             else if MarkNumber(db.safe) < n <= MarkNumber(after.safe) && !rows[n].status.Finalized? then Safe
             else rows[n].status
  {
    var rows := UpsertRows(db.rows, effect.chunk);
    var after := AfterIngest(s, db, effect);
    PromotedRowsMeaning(rows, after.safe, after.finalized, MarkNumber(db.safe), MarkNumber(db.finalized));
  }

  lemma IngestedRowsKept(s: Settings, db: Database, effect: Effect)
    requires ValidSettings(s) && RowsLinked(s, db) && MarksOrdered(db) && effect.Ingest? && ValidIngest(s, db, effect)
    ensures RowsLinked(s, AfterIngest(s, db, effect)) && MarksOrdered(AfterIngest(s, db, effect))
  {
    IngestedRows(s, db, effect);
    IngestedMarks(s, db, effect);
    IngestedBlocks(s, db, effect);
    var rows := UpsertRows(db.rows, effect.chunk);
    var after := AfterIngest(s, db, effect);
    SameBlocksSpan(rows, after.rows, s.startBlock, after.observed.value.number);
    SameBlocksMark(rows, after.rows, after.observed);
    SameBlocksMark(rows, after.rows, after.safe);
    SameBlocksMark(rows, after.rows, after.finalized);
  }

  lemma MarksNotNegative(s: Settings, db: Database)
    requires ValidSettings(s) && RowsLinked(s, db) && MarksOrdered(db)
    ensures db.safe.Some? ==> db.safe.value.number >= 0
    ensures db.finalized.Some? ==> db.finalized.value.number >= 0
  {
  }

  lemma IngestedStatuses(s: Settings, db: Database, effect: Effect)
    requires ValidSettings(s) && RowsLinked(s, db) && MarksOrdered(db) && effect.Ingest? && ValidIngest(s, db, effect)
    requires StatusesMatch(db)
    ensures StatusesMatch(AfterIngest(s, db, effect))
  {
    hide RowsLinked, ValidIngest, AfterIngest, UpsertRows, ValidSettings, MarksOrdered, SameBlocks;
    MarksNotNegative(s, db);
    IngestedMarks(s, db, effect);
    IngestedBlocks(s, db, effect);
    var rows := UpsertRows(db.rows, effect.chunk);
    var after := AfterIngest(s, db, effect);
    forall n | n in after.rows
      ensures after.rows[n].status == StatusFor(MarkNumber(after.safe), MarkNumber(after.finalized), n)
    {
      SameBlocksHold(rows, after.rows, n);
      StatusBefore(s, db, effect, n);
    }
  }

  lemma SameBlocksHold(before: map<int, Row>, after: map<int, Row>, n: int)
    requires SameBlocks(before, after) && n in after
    ensures n in before
  {
    assert n in before.Keys;
  }

  lemma StatusBefore(s: Settings, db: Database, effect: Effect, n: int)
    requires ValidSettings(s) && RowsLinked(s, db) && MarksOrdered(db) && effect.Ingest? && ValidIngest(s, db, effect)
    requires StatusesMatch(db) && n in UpsertRows(db.rows, effect.chunk)
    ensures UpsertRows(db.rows, effect.chunk)[n].status
         == StatusFor(MarkNumber(db.safe), MarkNumber(db.finalized), n)
    ensures n >= 0
  {
    IngestContinues(s, db, effect);
    AppendRows(db.rows, s.startBlock, NextBlock(s, db), effect.chunk);
    AppendedRows(db.rows, s.startBlock, NextBlock(s, db), effect.chunk);
  }

  lemma ChunkEventHoused(s: Settings, db: Database, effect: Effect, e: Event)
    requires ValidSettings(s) && RowsLinked(s, db) && MarksOrdered(db) && effect.Ingest? && ValidIngest(s, db, effect)
    requires InChunk(effect.chunk, e)
    ensures Housed(UpsertRows(db.rows, effect.chunk), e)
  {
    AppendRows(db.rows, s.startBlock, NextBlock(s, db), effect.chunk);
    var i :| 0 <= i < |effect.chunk| && e.number == effect.chunk[i].number
             && e.hash == Keccak(effect.chunk[i]) && e.time == effect.chunk[i].time;
    assert e.number == NextBlock(s, db) + i;
  }

  lemma StoredEventHoused(s: Settings, db: Database, effect: Effect, e: Event)
    requires ValidSettings(s) && RowsLinked(s, db) && MarksOrdered(db) && effect.Ingest? && ValidIngest(s, db, effect)
    requires Housed(db.rows, e)
    ensures Housed(UpsertRows(db.rows, effect.chunk), e)
  {
    AppendRows(db.rows, s.startBlock, NextBlock(s, db), effect.chunk);
  }

  lemma IngestedEvents(s: Settings, db: Database, effect: Effect)
    requires ValidSettings(s) && RowsLinked(s, db) && MarksOrdered(db) && effect.Ingest? && ValidIngest(s, db, effect)
    requires EventsHoused(db)
    ensures EventsHoused(AfterIngest(s, db, effect))
  {
    IngestedBlocks(s, db, effect);
    InsertEventsAdds(db.events, effect.events);
    var rows := UpsertRows(db.rows, effect.chunk);
    var after := AfterIngest(s, db, effect);
    forall k | k in after.events
      ensures KeyOf(after.events[k]) == k && Housed(after.rows, after.events[k]) && Decodable(after.events[k])
    {
      var e := after.events[k];
      assert e in after.events.Values;
      if e in effect.events {
        ChunkEventHoused(s, db, effect, e);
      } else {
        var j :| j in db.events && db.events[j] == e;
        StoredEventHoused(s, db, effect, e);
      }
      SameBlocksHouse(rows, after.rows, e);
    }
  }

  lemma IngestKeepsInvariant(s: Settings, db: Database, effect: Effect)
    requires ValidSettings(s) && LedgerInvariant(s, db) && effect.Ingest? && ValidIngest(s, db, effect)
    ensures LedgerInvariant(s, After(s, db, effect))
  {
    IngestedRowsKept(s, db, effect);
    IngestedStatuses(s, db, effect);
    IngestedEvents(s, db, effect);
  }

  lemma RecoverKeepsInvariant(s: Settings, db: Database, record: Reorg)
    requires LedgerInvariant(s, db) && ForkRecord(s, db, record)
    ensures LedgerInvariant(s, AfterRecover(db, record))
  {
    forall n ensures RowLink(AfterRecover(db, record).rows, n) {
      assert RowLink(db.rows, n);
    }
  }

  /** Every effect of a step keeps the ledger invariant. */
  lemma EffectKeepsInvariant(s: Settings, db: Database, effect: Effect)
    requires ValidSettings(s) && LedgerInvariant(s, db) && ValidEffect(s, db, effect)
    ensures LedgerInvariant(s, After(s, db, effect))
  {
    match effect {
      case Nothing =>
      case Ingest(_, _, _, _) => IngestKeepsInvariant(s, db, effect);
      case Record(record) =>
      case Recover(record) => RecoverKeepsInvariant(s, db, record);
    }
  }
}
