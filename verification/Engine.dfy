/** The indexer's step and its reorg recovery (backend/internal/indexer/engine.go and
    reorg.go). The only writer of the store; every transaction may fail, and a commit may
    stay unacknowledged. */
module Indexer {
  import opened Wrappers
  import opened Chain
  import opened Discovery
  import opened Ledger
  import opened Storage

  datatype StepError =
    | RpcUnhealthy
    | InvalidHeader
    | HeadOrdering
    | SafeViolation
    | HeaderNumber
    | NoObservedTip
    | TipChanged
    | BrokenCandidates
    | NoCandidates
    | NoCommonAncestor
    | AncestorNotBelow
    | CanonicalMismatch
    | InvalidCoordinates
    | UnsupportedEngine
    | DiscoveryFailed(reason: DiscoveryError)
    | DecodingFailed(cause: DecodeError)
    | MissingPromotionBlock(number: int)
    | RoutingFailed
    | TransactionFailed
    | OutcomeUnknown

  datatype StepResult = Done(advanced: bool) | Failed(error: StepError)

  // ---- candidate chains ----------------------------------------------------------------

  predicate CandidateLink(candidates: seq<Hash>, i: int)
    requires 0 < i < |candidates|
  {
    candidates[i - 1].Keccak? && candidates[i - 1].header.parent == candidates[i]
  }

  /** Hashes of consecutive headers, walking down from the block with this number. */
  predicate CandidateChain(candidates: seq<Hash>, top: int) {
    && (forall i :: 0 <= i < |candidates| ==> candidates[i].Keccak? && candidates[i].header.number == top - i)
    && (forall i :: 0 < i < |candidates| ==> CandidateLink(candidates, i))
  }

  lemma ExtendCandidates(candidates: seq<Hash>, top: int, hash: Hash)
    requires CandidateChain(candidates, top) && hash.Keccak? && hash.header.number == top - |candidates|
    requires candidates != [] ==> candidates[|candidates| - 1].header.parent == hash
    ensures CandidateChain(candidates + [hash], top)
  {
    forall i | 0 < i < |candidates + [hash]| ensures CandidateLink(candidates + [hash], i) {
      if i < |candidates| {
        assert CandidateLink(candidates, i);
      }
    }
  }

  lemma {:induction false} CandidatesDescend(candidates: seq<Hash>, top: int, k: int)
    requires CandidateChain(candidates, top) && 0 <= k < |candidates|
    ensures HashAt(candidates[0], top - k) == Some(candidates[k])
    ensures Descends(candidates[0], top, top - k)
    decreases k
  {
    if k > 0 {
      var rest := candidates[1..];
      assert CandidateLink(candidates, 1);
      forall i | 0 < i < |rest| ensures CandidateLink(rest, i) {
        assert CandidateLink(candidates, i + 1);
      }
      CandidatesDescend(rest, top - 1, k - 1);
    }
  }

  /** What the stored rows and the candidates settle: the highest stored candidate is the
      fork, and it is the only answer FindCommonAncestor can give. */
  lemma HighestCandidateIsFork(
    s: Settings, db: Database, candidates: seq<Hash>, top: int, ancestor: int, record: Reorg)
    requires LedgerInvariant(s, db) && db.observed.Some?
    requires CandidateChain(candidates, top) && 0 < |candidates| <= s.searchDepth
    requires s.startBlock <= top - |candidates| + 1
    requires db.safe.Some? ==> db.safe.value.number <= top - |candidates| + 1
    requires ancestor in db.rows && db.rows[ancestor].hash in candidates
    requires forall n :: n in db.rows && db.rows[n].hash in candidates ==> n <= ancestor
    requires ancestor < db.observed.value.number
    requires record == Reorg(top, candidates[0], ancestor, db.rows[ancestor].hash,
                             db.observed.value.number - ancestor, false)
    ensures ForkRecord(s, db, record)
  {
    var k :| 0 <= k < |candidates| && candidates[k] == db.rows[ancestor].hash;
    assert ancestor == top - k;
    CandidatesDescend(candidates, top, k);
    forall n | ancestor < n <= top && n in db.rows
      ensures HashAt(candidates[0], n) != Some(db.rows[n].hash)
    {
      CandidatesDescend(candidates, top, top - n);
    }
  }

  function Floor(s: Settings, safe: Option<Mark>): int {
    if safe.Some? && safe.value.number > s.startBlock then safe.value.number else s.startBlock
  }

  /** The chain of the provider meets the stored one within reach of a recovery that
      starts at this tip: at a stored block at or above the safe mark, and fewer blocks
      below the tip than the search is deep. */
  ghost predicate ForkInWindow(s: Settings, db: Database, chain: seq<Header>, tip: int) {
    && db.observed.Some? && tip < |chain|
    && exists n :: n in db.rows && 0 <= n && s.startBlock <= n <= tip && tip - n < s.searchDepth
                   && (db.safe.Some? ==> db.safe.value.number <= n)
                   && db.rows[n].hash == Keccak(chain[n])
  }

  /** What a step is about to commit with its chunk. */
  datatype Plan = Plan(events: seq<Event>, observed: Mark, safe: Option<Mark>, finalized: Option<Mark>)

  /** The outcome of comparing the saved marks with the provider. */
  datatype SavedCheck = Consistent | SavedFailed(error: StepError) | SavedDiverged(tip: Header)

  datatype ChunkCheck =
    | Built(to: int, blocks: map<int, Row>)
    | ChunkFailed(error: StepError)
    | ChunkDiverged(tip: Header)

  datatype HeaderCheck = NextHeader(header: Header) | HeaderFailed(error: StepError) | HeaderDiverged(tip: Header)

  /** A chunk that continues the observed block. */
  predicate ChunkOn(observed: Option<Mark>, from: int, chunk: seq<Header>) {
    && Linked(chunk)
    && (chunk != [] ==> chunk[0].number == from)
    && (chunk != [] && observed.Some? ==> chunk[0].parent == observed.value.hash)
  }

  /** A chunk is what the chain holds from this block on. */
  predicate ChunkOfChain(chain: seq<Header>, from: int, chunk: seq<Header>)
    requires from >= 0
  {
    chunk != [] ==> from + |chunk| <= |chain| && chunk == chain[from..from + |chunk|]
  }

  /** What DecodeLogs makes of one log. */
  predicate DecodedFrom(log: Log, blocks: map<int, Row>, e: Event) {
    && log.number in blocks && blocks[log.number].hash == log.blockHash
    && log.blockHash.Keccak? && HasEntity(log.entry)
    && e == EventOf(log) && Decodable(e) && !log.removed
  }

  /** The events are those of the wanted logs of the chunk: none missing, none added. */
  ghost predicate CompleteEvents(chunk: seq<Header>, known: Emitters, events: seq<Event>)
    requires Linked(chunk)
  {
    forall e :: e in events <==> EventWanted(chunk, known, e)
  }

  ghost predicate EventWanted(hs: seq<Header>, known: Emitters, e: Event)
    requires Linked(hs)
  {
    exists l :: WantedLog(hs, known, l) && HasEntity(l.entry) && l.blockHash.Keccak? && e == EventOf(l)
  }

  /** A valid effect of a step against one chain: its events are the wanted ones. */
  ghost predicate FaithfulEffect(s: Settings, factory: Address, db: Database, effect: Effect) {
    && ValidEffect(s, db, effect)
    && (effect.Ingest? ==> CompleteEvents(effect.chunk, KnownEmitters(factory, db), effect.events))
  }

  /** A run whose every step saw one chain, though not always the same one. */
  ghost predicate FaithfulRun(s: Settings, factory: Address, db: Database, effects: seq<Effect>) {
    effects != [] ==>
      && FaithfulRun(s, factory, db, effects[..|effects| - 1])
      && FaithfulEffect(s, factory, Replay(s, db, effects[..|effects| - 1]), effects[|effects| - 1])
  }

  lemma ChunkBlocks(chunk: seq<Header>)
    requires Linked(chunk) && chunk != []
    ensures
      var blocks := UpsertRows(map[], chunk);
      && (forall n :: n in blocks <==> chunk[0].number <= n <= chunk[0].number + |chunk| - 1)
      && (forall n :: n in blocks ==> RowOfHeader(n, blocks[n]))
      && (forall i :: 0 <= i < |chunk| ==> chunk[i].number in blocks && blocks[chunk[i].number] == RowOf(chunk[i]))
  {
    var first := chunk[0].number;
    assert Continues(map[], first, first, chunk);
    NumbersFollow(chunk);
    hide Continues, UpsertRows, Linked;
    AppendRows(map[], first, first, chunk);
    forall i | 0 <= i < |chunk|
      ensures chunk[i].number in UpsertRows(map[], chunk) && UpsertRows(map[], chunk)[chunk[i].number] == RowOf(chunk[i])
    {
      assert HoldsRow(UpsertRows(map[], chunk), first + i, chunk[i]);
    }
  }

  lemma NumbersFollow(chunk: seq<Header>)
    requires Linked(chunk)
    ensures forall i :: 0 <= i < |chunk| ==> chunk[i].number == chunk[0].number + i
  {
  }

  lemma WantedInBlocks(chunk: seq<Header>, em: Emitters, logs: seq<Log>, blocks: map<int, Row>)
    requires Linked(chunk) && chunk != [] && blocks == UpsertRows(map[], chunk)
    requires forall l :: l in logs <==> WantedLog(chunk, em, l)
    ensures forall l :: l in logs ==> l.number in blocks && blocks[l.number].hash == l.blockHash
  {
    ChunkBlocks(chunk);
    forall l | l in logs ensures l.number in blocks && blocks[l.number].hash == l.blockHash {
      var i, e := LogHome(chunk, l);
      assert blocks[chunk[i].number] == RowOf(chunk[i]);
    }
  }

  lemma DecodedInChunk(chunk: seq<Header>, logs: seq<Log>, blocks: map<int, Row>, events: seq<Event>)
    requires Linked(chunk) && chunk != [] && blocks == UpsertRows(map[], chunk)
    requires |events| == |logs| && forall i :: 0 <= i < |logs| ==> DecodedFrom(logs[i], blocks, events[i])
    ensures forall e :: e in events ==> InChunk(chunk, e) && Decodable(e)
  {
    ChunkBlocks(chunk);
    forall e | e in events ensures InChunk(chunk, e) && Decodable(e) {
      var i :| 0 <= i < |events| && events[i] == e;
      assert DecodedFrom(logs[i], blocks, e);
      var k := e.number - chunk[0].number;
      assert chunk[k].number == e.number && blocks[chunk[k].number] == RowOf(chunk[k]);
    }
  }

  lemma DecodedIsComplete(chunk: seq<Header>, em: Emitters, logs: seq<Log>, blocks: map<int, Row>, events: seq<Event>)
    requires Linked(chunk)
    requires forall l :: l in logs <==> WantedLog(chunk, em, l)
    requires |events| == |logs| && forall i :: 0 <= i < |logs| ==> DecodedFrom(logs[i], blocks, events[i])
    ensures CompleteEvents(chunk, em, events)
  {
    forall e ensures e in events <==> EventWanted(chunk, em, e) {
      if e in events {
        var i :| 0 <= i < |events| && events[i] == e;
        assert DecodedFrom(logs[i], blocks, e) && logs[i] in logs;
      }
      if EventWanted(chunk, em, e) {
        var l :| WantedLog(chunk, em, l) && HasEntity(l.entry) && l.blockHash.Keccak? && e == EventOf(l);
        var i :| 0 <= i < |logs| && logs[i] == l;
        assert DecodedFrom(logs[i], blocks, events[i]);
      }
    }
  }

  /** A mark lies on the chain. */
  predicate AgreesAt(mark: Option<Mark>, chain: seq<Header>) {
    mark.Some? ==> 0 <= mark.value.number < |chain| && mark.value.hash == Keccak(chain[mark.value.number])
  }

  /** Every row is the chain's block of its number. */
  ghost predicate RowsOnChain(rows: map<int, Row>, chain: seq<Header>) {
    forall n :: n in rows ==> 0 <= n < |chain| && rows[n].hash == Keccak(chain[n])
  }

  /** What the chunk transaction may assume: all of ValidIngest but the event keys. */
  ghost predicate ChunkFits(s: Settings, db: Database, chunk: seq<Header>, events: seq<Event>) {
    && (db.observed.Some? || chunk != [])
    && |chunk| <= s.chunkSize
    && ChunkOn(db.observed, NextBlock(s, db), chunk)
    && (forall e :: e in events ==> InChunk(chunk, e) && Decodable(e))
  }

  /** The next row of a chunk is new, by number and by hash. */
  lemma FreshRow(rows: map<int, Row>, start: int, first: int, chunk: seq<Header>, k: int)
    requires Continues(rows, start, first, chunk) && 0 <= k < |chunk|
    ensures
      var before := UpsertRows(rows, chunk[..k]);
      && first + k !in before
      && (forall n :: n in before ==> before[n].hash != Keccak(chunk[k]))
      && UpsertRows(rows, chunk[..k + 1]) == before[first + k := RowOf(chunk[k])]
  {
    PrefixRows(rows, start, first, chunk, k);
    assert chunk[..k + 1][..k] == chunk[..k];
  }

  lemma ChunkRow(chunk: seq<Header>, k: int)
    requires Linked(chunk) && 0 <= k < |chunk|
    ensures chunk[0].number + k in UpsertRows(map[], chunk)
    ensures UpsertRows(map[], chunk)[chunk[0].number + k] == RowOf(chunk[k])
  {
    ChunkBlocks(chunk);
    assert chunk[k].number == chunk[0].number + k;
  }

  lemma PrefixRows(rows: map<int, Row>, start: int, first: int, chunk: seq<Header>, k: int)
    requires Continues(rows, start, first, chunk) && 0 <= k <= |chunk|
    ensures RowsSpan(UpsertRows(rows, chunk[..k]), start, first + k - 1)
  {
    LinkedSlice(chunk, 0, k);
    AppendRows(rows, start, first, chunk[..k]);
  }

  lemma FittingChunkContinues(s: Settings, db: Database, chunk: seq<Header>, events: seq<Event>)
    requires RowsLinked(s, db) && MarksOrdered(db) && ChunkFits(s, db, chunk, events)
    ensures Continues(db.rows, s.startBlock, NextBlock(s, db), chunk)
  {
  }

  lemma ChunkStart(s: Settings, db: Database, chunk: seq<Header>)
    requires ChunkFits(s, db, chunk, [])
    ensures Linked(chunk) && (chunk != [] ==> chunk[0].number == NextBlock(s, db))
  {
  }

  /** Every event is stored under its own key. */
  predicate EventsKeyed(events: map<EventKey, Event>) {
    forall k :: k in events ==> KeyOf(events[k]) == k
  }

  /** An added event shares entity, transaction and log index with a different one that is
      stored or also added. */
  ghost predicate KeysClash(stored: map<EventKey, Event>, added: seq<Event>) {
    exists a, b :: b in added && (a in stored.Values || a in added) && a != b && SameKey(a, b)
  }

  predicate SameKey(a: Event, b: Event) {
    a.entity == b.entity && a.txHash == b.txHash && a.index == b.index
  }

  lemma ConflictIsClash(stored: map<EventKey, Event>, events: seq<Event>, i: nat)
    requires EventsKeyed(stored) && i < |events| && InsertEvents(stored, events[..i]).Some?
    requires
      var before := InsertEvents(stored, events[..i]).value;
      KeyOf(events[i]) in before && before[KeyOf(events[i])] != events[i]
    ensures KeysClash(stored, events)
  {
    InsertEventsAdds(stored, events[..i]);
    var before := InsertEvents(stored, events[..i]).value;
    var a := before[KeyOf(events[i])];
    assert a in before.Values && events[i] in events;
    assert a in events[..i] ==> a in events;
    assert KeyOf(a) == KeyOf(events[i]);
  }

  lemma NoRows(rows: map<int, Row>)
    ensures UpsertRows(rows, []) == rows
  {
  }

  /** Stored launches were decoded, so their engine version is supported. */
  lemma IdentitiesDecoded(s: Settings, db: Database)
    requires LedgerInvariant(s, db)
    ensures forall i :: i in Identities(db) ==> i.engineVersion == 1
  {
    forall i | i in Identities(db) ensures i.engineVersion == 1 {
      var e :| e in db.events.Values && e.entity.TokenLaunched? && e.payload.LaunchPayload? && i == IdentityOf(e);
      var k :| k in db.events && db.events[k] == e;
    }
  }

  lemma ChunkNotEmpty(from: int, chunk: seq<Header>)
    requires Linked(chunk) && (chunk != [] ==> chunk[0].number == from)
    ensures UpsertRows(map[], chunk) == map[] <==> chunk == []
    ensures chunk != [] ==>
              && from + |chunk| - 1 in UpsertRows(map[], chunk)
              && ChunkHead(None, chunk) == Some(MarkOf(from + |chunk| - 1, UpsertRows(map[], chunk)[from + |chunk| - 1]))
  {
    if chunk != [] {
      ChunkBlocks(chunk);
      assert chunk[|chunk| - 1].number == from + |chunk| - 1;
    }
  }

  /** Reading a row from the chunk or else from the store is reading it from the rows
      that the chunk extends; none that a promotion may ask for is missing. */
  lemma PlannedRows(s: Settings, db: Database, chunk: seq<Header>)
    requires ValidSettings(s) && RowsLinked(s, db) && MarksOrdered(db) && ChunkFits(s, db, chunk, [])
    ensures
      var rows := UpsertRows(db.rows, chunk);
      var observed := ChunkHead(db.observed, chunk);
      && db.rows + UpsertRows(map[], chunk) == rows
      && observed.Some?
      && forall n :: s.startBlock <= n <= observed.value.number ==> n in rows
  {
    UpsertOver(db.rows, chunk);
    AppendRows(db.rows, s.startBlock, NextBlock(s, db), chunk);
  }

  lemma {:induction false} UpsertOver(rows: map<int, Row>, chunk: seq<Header>)
    ensures rows + UpsertRows(map[], chunk) == UpsertRows(rows, chunk)
  {
    if chunk != [] {
      UpsertOver(rows, chunk[..|chunk| - 1]);
    }
  }

  /** Rows whose top lies on the chain lie on it altogether. */
  lemma SpanOnChain(rows: map<int, Row>, start: int, last: int, chain: seq<Header>, n: int)
    requires RowsSpan(rows, start, last) && ValidChain(chain) && 0 <= start <= n <= last < |chain|
    requires rows[last].hash == Keccak(chain[last])
    ensures rows[n].hash == Keccak(chain[n])
  {
    SpanBelow(rows, start, last, chain, last, n);
  }

  lemma RowsFollowChain(s: Settings, db: Database, chunk: seq<Header>, chain: seq<Header>)
    requires ValidSettings(s) && RowsLinked(s, db) && MarksOrdered(db) && ChunkFits(s, db, chunk, [])
    requires ValidChain(chain) && AgreesAt(db.observed, chain) && ChunkOfChain(chain, NextBlock(s, db), chunk)
    ensures RowsOnChain(UpsertRows(db.rows, chunk), chain)
  {
    hide RowsLinked, MarksOrdered, ChunkFits, UpsertRows, Continues, Linked, ChunkOfChain, AgreesAt;
    var rows := UpsertRows(db.rows, chunk);
    var last := NextBlock(s, db) + |chunk| - 1;
    FittingChunkContinues(s, db, chunk, []);
    AppendRows(db.rows, s.startBlock, NextBlock(s, db), chunk);
    TopOnChain(s, db, chunk, chain);
    forall n | n in rows ensures 0 <= n < |chain| && rows[n].hash == Keccak(chain[n]) {
      SpanOnChain(rows, s.startBlock, last, chain, n);
    }
  }

  lemma TopOnChain(s: Settings, db: Database, chunk: seq<Header>, chain: seq<Header>)
    requires ValidSettings(s) && RowsLinked(s, db) && MarksOrdered(db) && ChunkFits(s, db, chunk, [])
    requires ValidChain(chain) && AgreesAt(db.observed, chain) && ChunkOfChain(chain, NextBlock(s, db), chunk)
    ensures
      var rows, last := UpsertRows(db.rows, chunk), NextBlock(s, db) + |chunk| - 1;
      s.startBlock <= last < |chain| && last in rows && rows[last].hash == Keccak(chain[last])
  {
    if chunk != [] {
      FittingChunkContinues(s, db, chunk, []);
      LastRow(db.rows, s.startBlock, NextBlock(s, db), chunk);
      var last := NextBlock(s, db) + |chunk| - 1;
      assert chunk[|chunk| - 1] == chain[NextBlock(s, db)..last + 1][|chunk| - 1];
    }
  }

  lemma NothingWanted(known: Emitters)
    ensures CompleteEvents([], known, [])
  {
  }

  /** The state of the loop of BuildChunk; `chain` is what the provider serves, if it
      serves one that the observed mark lies on. */
  ghost predicate ChunkRead(
    chain: Option<seq<Header>>, observed: Option<Mark>, from: int, number: int, chunk: seq<Header>,
    blocks: map<int, Row>, previous: Option<Mark>)
  {
    && from >= 0 && number == from + |chunk|
    && ChunkOn(observed, from, chunk)
    && blocks == UpsertRows(map[], chunk)
    && previous == ChunkHead(observed, chunk)
    && (chain.Some? ==> ChunkOfChain(chain.value, from, chunk))
  }

  lemma ChunkReadHead(
    chain: Option<seq<Header>>, observed: Option<Mark>, from: int, number: int, chunk: seq<Header>,
    blocks: map<int, Row>, previous: Option<Mark>)
    requires ChunkRead(chain, observed, from, number, chunk, blocks, previous)
    requires observed.Some? ==> observed.value.number == from - 1
    requires chain.Some? ==> AgreesAt(observed, chain.value)
    ensures previous.Some? ==> previous.value.number == number - 1
    ensures chain.Some? ==> AgreesAt(previous, chain.value)
  {
    if chain.Some? && chunk != [] {
      assert chunk[|chunk| - 1] == chain.value[from + |chunk| - 1];
    }
  }

  lemma ChunkReadExtends(
    chain: Option<seq<Header>>, observed: Option<Mark>, from: int, number: int, chunk: seq<Header>,
    blocks: map<int, Row>, previous: Option<Mark>, header: Header)
    requires ChunkRead(chain, observed, from, number, chunk, blocks, previous)
    requires ValidHeader(header) && header.number == number
    requires previous.Some? ==> header.parent == previous.value.hash
    requires chain.Some? ==> number < |chain.value| && header == chain.value[number]
    ensures ChunkRead(chain, observed, from, number + 1, chunk + [header], blocks[number := RowOf(header)],
                      Some(MarkOf(number, RowOf(header))))
  {
    assert (chunk + [header])[..|chunk|] == chunk;
    ExtendLinked(chunk, header);
  }

  lemma ExtendLinked(chunk: seq<Header>, header: Header)
    requires Linked(chunk) && ValidHeader(header)
    requires chunk != [] ==>
               header.number == chunk[0].number + |chunk| && header.parent == Keccak(chunk[|chunk| - 1])
    ensures Linked(chunk + [header])
  {
    var after := chunk + [header];
    forall i | 0 < i < |after| ensures LinkAt(after, i) {
      if i < |chunk| {
        assert LinkAt(chunk, i);
      }
    }
  }

  function BlockCount(from: int, to: int): int {
    if from <= to then to - from + 1 else 0
  }

  function ChunkEnd(s: Settings, from: int, latest: int): int {
    if latest - from >= s.chunkSize then from + s.chunkSize - 1 else latest
  }

  /** The part of the chain that the next step reads. */
  function ExpectedChunk(s: Settings, observed: Option<Mark>, chain: seq<Header>): seq<Header>
    requires NextAfter(s, observed) >= 0 && s.chunkSize > 0
  {
    var from := NextAfter(s, observed);
    var to := ChunkEnd(s, from, |chain| - 1);
    if from <= to then chain[from..to + 1] else []
  }

  lemma ChunkIsExpected(s: Settings, observed: Option<Mark>, chain: seq<Header>, chunk: seq<Header>)
    requires NextAfter(s, observed) >= 0 && s.chunkSize > 0
    requires ChunkOfChain(chain, NextAfter(s, observed), chunk)
    requires |chunk| == BlockCount(NextAfter(s, observed), ChunkEnd(s, NextAfter(s, observed), |chain| - 1))
    ensures chunk == ExpectedChunk(s, observed, chain) && |chunk| <= s.chunkSize
  {
  }

  /** What the transaction that opens a step reads. */
  datatype Saved = Saved(
    observed: Option<Mark>, safe: Option<Mark>, finalized: Option<Mark>, identities: set<TokenIdentity>)

  ghost predicate HeadsOf(v: View, heads: Heads) {
    && ValidView(v)
    && heads.latest == v.chain[|v.chain| - 1]
    && heads.safe == v.chain[v.safe]
    && heads.finalized == v.chain[v.finalized]
  }

  /** An effect that a chunk transaction or a completed recovery leaves. */
  predicate Commits(effect: Effect) {
    effect.Ingest? || effect.Recover?
  }

  /** A step that reports progress has recovered or has ingested blocks. */
  predicate Advances(effect: Effect) {
    effect.Recover? || (effect.Ingest? && effect.chunk != [])
  }

  /** What a completed step does against one chain: on that chain it ingests the next
      chunk with the reported heads, or rests when there is nothing at all; off it, it
      recovers from the chain's block at the observed height. */
  ghost predicate Settled(s: Settings, v: View, db: Database, effect: Effect)
    requires ValidSettings(s) && NextBlock(s, db) >= 0
  {
    if AgreesAt(db.observed, v.chain) then
      var chunk := ExpectedChunk(s, db.observed, v.chain);
      if db.observed.None? && chunk == [] then effect.Nothing?
      else effect.Ingest? && effect.chunk == chunk && effect.safeHead == v.safe && effect.finalizedHead == v.finalized
    else
      && effect.Recover? && db.observed.Some? && 0 <= db.observed.value.number < |v.chain|
      && effect.record.tipNumber == db.observed.value.number
      && effect.record.tipHash == Keccak(v.chain[db.observed.value.number])
  }

  /** The same in plain terms: on the chain, the next blocks up to the chunk size and the
      reported heads; off it, a recovery from the chain's block at the observed height. */
  lemma SettledSpelledOut(s: Settings, v: View, db: Database, effect: Effect)
    requires ValidSettings(s) && LedgerInvariant(s, db) && ValidView(v)
    ensures
      Settled(s, v, db, effect) <==>
        var from := if db.observed.Some? then db.observed.value.number + 1 else s.startBlock;
        var left := |v.chain| - from;
        if db.observed.None?
           || (from <= |v.chain| && db.observed.value.hash == Keccak(v.chain[from - 1])) then
          if db.observed.None? && left <= 0 then effect.Nothing?
          else
            && effect.Ingest? && effect.safeHead == v.safe && effect.finalizedHead == v.finalized
            && |effect.chunk| == (if left <= 0 then 0 else if left <= s.chunkSize then left else s.chunkSize)
            && forall i :: 0 <= i < |effect.chunk| ==> effect.chunk[i] == v.chain[from + i]
        else
          && effect.Recover? && from <= |v.chain|
          && effect.record.tipNumber == from - 1 && effect.record.tipHash == Keccak(v.chain[from - 1])
  {
    hide ValidView, StatusesMatch, EventsHoused;
    var chunk := ExpectedChunk(s, db.observed, v.chain);
    var from := NextBlock(s, db);
    forall i | 0 <= i < |chunk| ensures chunk[i] == v.chain[from + i] {
    }
    if effect.Ingest? && |effect.chunk| == |chunk| {
      if forall i :: 0 <= i < |effect.chunk| ==> effect.chunk[i] == v.chain[from + i] {
        assert effect.chunk == chunk;
      }
    }
  }

  /** A run of completed steps, all against one chain. */
  ghost predicate SettledRun(s: Settings, v: View, db: Database, effects: seq<Effect>)
    requires ValidSettings(s)
  {
    effects != [] ==>
      var before := Replay(s, db, effects[..|effects| - 1]);
      && SettledRun(s, v, db, effects[..|effects| - 1])
      && NextBlock(s, before) >= 0 && Settled(s, v, before, effects[|effects| - 1])
  }

  /** A committed step that the run took against one chain did what it called for, also if
      its commit was not acknowledged. */
  ghost predicate OneChainRun(s: Settings, v: View, db: Database, effects: seq<Effect>)
    requires ValidSettings(s)
  {
    effects != [] ==>
      var before, last := Replay(s, db, effects[..|effects| - 1]), effects[|effects| - 1];
      && OneChainRun(s, v, db, effects[..|effects| - 1])
      && NextBlock(s, before) >= 0 && (Commits(last) ==> Settled(s, v, before, last))
  }

  /** The situation a recovery is meant for: the provider's chain reaches the observed
      height with another block there, and joins the stored chain within the window. */
  ghost predicate Recoverable(s: Settings, db: Database, chain: seq<Header>, tip: int) {
    && ForkInWindow(s, db, chain, tip)
    && 0 <= db.observed.value.number <= tip
    && db.observed.value.hash != Keccak(chain[db.observed.value.number])
  }

  /** A step against one chain may fail only for reasons of the environment when the
      stored chain is on it, or when it forks from it within the search window and
      above the safe mark. */
  ghost predicate Continuable(s: Settings, db: Database, chain: seq<Header>) {
    || AgreesAt(db.observed, chain)
    || (db.observed.Some? && AgreesAt(db.safe, chain) && Recoverable(s, db, chain, db.observed.value.number))
  }

  /** Exactly when a step against one chain can continue: nothing is observed yet, or the
      chain reaches the observed height and holds a stored block that is neither below the
      safe mark nor too far below the observed one. */
  lemma ContinuableSpelledOut(s: Settings, db: Database, chain: seq<Header>)
    requires ValidSettings(s) && LedgerInvariant(s, db) && ValidChain(chain)
    ensures Continuable(s, db, chain) <==>
              || db.observed.None?
              || (&& db.observed.value.number < |chain|
                  && exists n :: n in db.rows && s.startBlock <= n <= db.observed.value.number
                                 && db.observed.value.number - n < s.searchDepth
                                 && (db.safe.Some? ==> db.safe.value.number <= n)
                                 && db.rows[n].hash == Keccak(chain[n]))
  {
    if db.observed.Some? && db.observed.value.number < |chain| {
      var top := db.observed.value.number;
      forall n | n in db.rows && db.rows[n].hash == Keccak(chain[n]) && (db.safe.Some? ==> db.safe.value.number <= n <= top)
        ensures AgreesAt(db.safe, chain)
      {
        RowsBelow(s, db, chain, n);
      }
    }
  }

  /** It is enough that the chains agree at the safe mark and that the search is deeper than
      what lies above it. */
  lemma SafeBlockSuffices(s: Settings, db: Database, chain: seq<Header>)
    requires ValidSettings(s) && LedgerInvariant(s, db) && ValidChain(chain)
    requires db.safe.Some? && db.observed.value.number < |chain|
    requires db.safe.value.hash == Keccak(chain[db.safe.value.number])
    requires db.observed.value.number - db.safe.value.number < s.searchDepth
    ensures Continuable(s, db, chain)
  {
    ContinuableSpelledOut(s, db, chain);
    assert db.rows[db.safe.value.number].hash == Keccak(chain[db.safe.value.number]);
  }

  /** A chain that holds a stored block holds all those below it. */
  lemma RowsBelow(s: Settings, db: Database, chain: seq<Header>, n: int)
    requires ValidSettings(s) && LedgerInvariant(s, db) && ValidChain(chain)
    requires n in db.rows && n < |chain| && db.rows[n].hash == Keccak(chain[n])
    ensures db.safe.Some? && db.safe.value.number <= n ==> AgreesAt(db.safe, chain)
  {
    if db.safe.Some? && db.safe.value.number <= n {
      SpanBelow(db.rows, s.startBlock, NextBlock(s, db) - 1, chain, n, db.safe.value.number);
    }
  }

  lemma {:induction false} SpanBelow(
    rows: map<int, Row>, start: int, last: int, chain: seq<Header>, top: int, n: int)
    requires RowsSpan(rows, start, last) && ValidChain(chain) && 0 <= start <= n <= top <= last && top < |chain|
    requires rows[top].hash == Keccak(chain[top])
    ensures rows[n].hash == Keccak(chain[n])
    decreases top - n
  {
    if n < top {
      SpanBelow(rows, start, last, chain, top, n + 1);
      assert RowLink(rows, n + 1) && LinkAt(chain, n + 1);
    }
  }

  /** A chain that holds the observed block holds the safe one. */
  lemma ObservedCoversSafe(s: Settings, db: Database, chain: seq<Header>)
    requires ValidSettings(s) && LedgerInvariant(s, db) && ValidChain(chain)
    ensures AgreesAt(db.observed, chain) ==> AgreesAt(db.safe, chain)
    ensures MarkNumber(db.observed) == MarkNumber(db.safe) && AgreesAt(db.safe, chain) ==> AgreesAt(db.observed, chain)
  {
    if AgreesAt(db.observed, chain) && db.safe.Some? {
      SpanOnChain(db.rows, s.startBlock, db.observed.value.number, chain, db.safe.value.number);
    }
  }

  class Engine {
    const settings: Settings
    const factory: Address
    const store: Store
    const source: Provider
    const discovery: Discoverer

    ghost predicate Configured() {
      ValidSettings(settings) && source.Valid() && discovery.Valid() && discovery.source == source
    }

    ghost predicate Valid()
      reads store
    {
      Configured() && LedgerInvariant(settings, store.db)
    }

    constructor (settings: Settings, factory: Address, store: Store, source: Provider, discovery: Discoverer)
      requires ValidSettings(settings) && source.Valid() && discovery.Valid() && discovery.source == source
      requires LedgerInvariant(settings, store.db)
      ensures Valid() && this.settings == settings && this.factory == factory
      ensures this.store == store && this.source == source && this.discovery == discovery
    {
      this.settings := settings;
      this.factory := factory;
      this.store := store;
      this.source := source;
      this.discovery := discovery;
    }

    ghost predicate Serves(header: Header) {
      source.view.Some? ==> 0 <= header.number < |source.view.value.chain|
                            && header == source.view.value.chain[header.number]
    }

    // ---- failures ----------------------------------------------------------------------

    /** A call of the provider or of the store has failed, which a reliable one does not. */
    ghost predicate Outage(e: StepError) {
      || (e.RpcUnhealthy? && !source.reliable)
      || ((e.TransactionFailed? || e.OutcomeUnknown? || e.RoutingFailed?) && !store.reliable)
    }

    /** What a step may meet even when the protocol has nothing to object to: an outage, a
        header beyond the chain that is served, or a log that cannot be fetched, decoded or
        stored. */
    ghost predicate Environmental(e: StepError) {
      || Outage(e) || (e.RpcUnhealthy? && source.view.Some?)
      || e.InvalidCoordinates? || e.DiscoveryFailed? || e.DecodingFailed? || e.RoutingFailed?
    }

    /** Failures that the source guards against and that no run can meet, and those that a
        reliable store does not have. */
    ghost predicate NeverMet(e: StepError) {
      || e.MissingPromotionBlock? || e.UnsupportedEngine? || e.NoCandidates?
      || (store.reliable && (e.TransactionFailed? || e.OutcomeUnknown?))
    }

    /** Failures of all parts of a step, but for a recovery without an observed block. */
    ghost predicate Permitted(e: StepError) {
      !NeverMet(e) && !e.NoObservedTip?
    }

    /** The logs of a segment stand in the way of ingesting it: discovery cannot gather them,
        or one that is wanted has an index beyond 31 bits or does not decode. */
    ghost predicate Refused(hs: seq<Header>, em: Emitters, e: StepError)
      requires Configured() && source.view.Some? && Linked(hs) && hs != []
    {
      match e
      case DiscoveryFailed(reason) =>
        || discovery.GatherFailure(reason, hs[0].number, hs[|hs| - 1].number, hs)
        || (reason.ConflictingLogs? && !DistinctCoordinates(hs))
        || (reason.FactoryMismatch? && factory !in {ZERO_ADDRESS, discovery.factory})
      case InvalidCoordinates =>
        exists l :: WantedLog(hs, em, l) && (l.entry.txIndex > MAX_INT32 || l.entry.index > MAX_INT32)
      case DecodingFailed(cause) =>
        exists l, after :: WantedLog(hs, em, l) && EmittersWithLaunches(hs, em, after) && Decode(l, after) == Err(cause)
      case _ => false
    }

    /** And so does an event that shares its key with a different one. */
    ghost predicate Blocked(hs: seq<Header>, db: Database, e: StepError)
      requires Configured() && source.view.Some? && Linked(hs)
    {
      var em := KnownEmitters(discovery.factory, db);
      && hs != []
      && (|| Refused(hs, em, e)
          || (e.RoutingFailed?
              && exists a, b :: EventWanted(hs, em, b) && (a in db.events.Values || EventWanted(hs, em, a))
                                && a != b && SameKey(a, b)))
    }

    /** The observed block is on the chain, and the next segment of it is blocked. */
    ghost predicate Stopped(chain: seq<Header>, db: Database, e: StepError)
      requires Configured() && source.view.Some? && chain == source.view.value.chain && NextBlock(settings, db) >= 0
    {
      && AgreesAt(db.observed, chain)
      && Linked(ExpectedChunk(settings, db.observed, chain))
      && Blocked(ExpectedChunk(settings, db.observed, chain), db, e)
    }

    // ---- recovery ----------------------------------------------------------------------

    /** One candidate header: it must have the requested number and hash to the parent of
        the one before, or, as the first, still be the tip. */
    method ReadCandidate(number: int, tip: Header, previous: Option<Header>) returns (r: Result<Header, StepError>)
      requires Configured() && 0 <= number && (previous.None? ==> number == tip.number)
      requires previous.Some? ==> previous.value.number == number + 1
      ensures r.Ok? ==> ValidHeader(r.value) && r.value.number == number
      ensures r.Ok? ==> if previous.None? then r.value == tip else previous.value.parent == Keccak(r.value)
      ensures r.Ok? && source.view.Some? ==>
                0 <= number < |source.view.value.chain| && r.value == source.view.value.chain[number]
      ensures r.Err? ==> Permitted(r.error)
      ensures source.view.Some? && (if previous.None? then Serves(tip) else Serves(previous.value)) ==>
                if r.Err? then r.error == RpcUnhealthy && !source.reliable else Serves(r.value)
    {
      var answer := source.HeaderByNumber(number);
      if answer.Unavailable? {
        return Err(RpcUnhealthy);
      }
      var header := answer.value;
      if source.view.Some? && 0 <= number < |source.view.value.chain| - 1 {
        assert LinkAt(source.view.value.chain, number + 1);
      }
      if !ValidHeader(header) {
        return Err(InvalidHeader);
      }
      if header.number != number {
        return Err(HeaderNumber);
      }
      if previous.None? && Keccak(header) != Keccak(tip) {
        return Err(TipChanged);
      }
      if previous.Some? && (previous.value.number != header.number + 1 || previous.value.parent != Keccak(header)) {
        return Err(BrokenCandidates);
      }
      return Ok(header);
    }

    /** The countdown from the tip: each header must have the requested number, hash to the
        parent of the one before, and the first must still be the tip. */
    method CollectCandidates(tip: Header, floor: int) returns (r: Result<seq<Hash>, StepError>)
      requires Configured() && ValidHeader(tip) && 0 <= floor <= tip.number
      ensures r.Ok? ==> CandidateChain(r.value, tip.number) && r.value != [] && r.value[0] == Keccak(tip)
      ensures r.Ok? ==> |r.value| == Min(settings.searchDepth, tip.number - floor + 1)
      ensures r.Err? ==> Permitted(r.error)
      ensures r.Ok? ==> Serves(tip)
      ensures source.view.Some? && Serves(tip) && r.Err? ==> Outage(r.error)
      ensures source.view.Some? && Serves(tip) && r.Ok? ==>
                forall i :: 0 <= i < |r.value| ==> r.value[i] == Keccak(source.view.value.chain[tip.number - i])
    {
      var candidates: seq<Hash> := [];
      var previous: Option<Header> := None;
      var number := tip.number;
      while number >= floor && |candidates| < settings.searchDepth
        invariant number == tip.number - |candidates| && number >= floor - 1
        invariant |candidates| <= settings.searchDepth
        invariant CandidateChain(candidates, tip.number)
        invariant previous.Some? <==> candidates != []
        invariant candidates != [] ==> candidates[0] == Keccak(tip)
        invariant candidates != [] ==> Keccak(previous.value) == candidates[|candidates| - 1]
        invariant previous.Some? ==> Serves(tip)
        invariant source.view.Some? && Serves(tip) && previous.Some? ==> Serves(previous.value)
        invariant source.view.Some? && Serves(tip) ==>
          forall i :: 0 <= i < |candidates| ==> candidates[i] == Keccak(source.view.value.chain[tip.number - i])
        decreases number
      {
        var header :- ReadCandidate(number, tip, previous);
        var hash := Keccak(header);
        ExtendCandidates(candidates, tip.number, hash);
        candidates := candidates + [hash];
        previous := Some(header);
        number := number - 1;
        if header.number == 0 {
          break;
        }
      }
      if |candidates| == 0 {
        return Err(NoCandidates);
      }
      return Ok(candidates);
    }

    /** The tip must still be the provider's header of its number. */
    method RecheckTip(tip: Header) returns (error: Option<StepError>)
      requires Configured()
      ensures error.None? ==> Serves(tip)
      ensures error.Some? ==> error.value in {RpcUnhealthy, InvalidHeader, TipChanged}
      ensures source.view.Some? && Serves(tip) && error.Some? ==> error.value == RpcUnhealthy && !source.reliable
    {
      var rechecked := source.HeaderByNumber(tip.number);
      if rechecked.Unavailable? {
        return Some(RpcUnhealthy);
      }
      if !ValidHeader(rechecked.value) {
        return Some(InvalidHeader);
      }
      if rechecked.value.number != tip.number || Keccak(rechecked.value) != Keccak(tip) {
        return Some(TipChanged);
      }
      return None;
    }

    /** The first recovery transaction: finds the ancestor, rechecks the tip, and records
        the incident. */
    method RecordFork(observed: Option<Mark>, safe: Option<Mark>, tip: Header, candidates: seq<Hash>)
      returns (r: Result<(int, Reorg), StepError>, ghost recorded: Option<Reorg>)
      requires Valid() && observed == store.db.observed && safe == store.db.safe && observed.Some?
      requires ValidHeader(tip) && tip.number >= Floor(settings, safe)
      requires CandidateChain(candidates, tip.number) && candidates != [] && candidates[0] == Keccak(tip)
      requires |candidates| == Min(settings.searchDepth, tip.number - Floor(settings, safe) + 1)
      modifies store
      ensures recorded.Some? ==> ForkRecord(settings, old(store.db), recorded.value) && !recorded.value.completed
                                 && recorded.value.ancestorNumber in old(store.db).rows
                                 && old(store.db).rows[recorded.value.ancestorNumber].hash == recorded.value.ancestorHash
                                 && recorded.value.tipNumber == tip.number && recorded.value.tipHash == Keccak(tip)
                                 && recorded.value.ancestorHash in candidates && Serves(tip)
      ensures store.db == if recorded.Some? then old(store.db).(reorgs := old(store.db).reorgs + [recorded.value])
                          else old(store.db)
      ensures r.Ok? ==> recorded == Some(r.value.1) && r.value.0 == |old(store.db).reorgs|
      ensures r.Err? && r.error == NoCommonAncestor ==>
                forall n :: n in old(store.db).rows ==> old(store.db).rows[n].hash !in candidates
      ensures r.Err? && r.error == AncestorNotBelow ==> observed.value.hash in candidates
      ensures r.Err? ==> r.error in {NoCommonAncestor, AncestorNotBelow, RpcUnhealthy, InvalidHeader, TipChanged,
                                     TransactionFailed, OutcomeUnknown}
      ensures r.Err? && store.reliable ==> r.error !in {TransactionFailed, OutcomeUnknown}
      ensures r.Err? && source.view.Some? && Serves(tip) ==>
                Outage(r.error) || r.error == NoCommonAncestor || r.error == AncestorNotBelow
    {
      recorded := None;
      store.Begin();
      var found := store.FindCommonAncestor(candidates);
      if found.None? {
        store.Rollback();
        return Err(NoCommonAncestor), None;
      }
      var ancestor := found.value;
      var depth := observed.value.number - ancestor;
      if depth <= 0 {
        store.Rollback();
        assert ancestor == observed.value.number;
        return Err(AncestorNotBelow), None;
      }
      var row := store.ReadBlock(ancestor);
      var record := Reorg(tip.number, Keccak(tip), ancestor, row.value.hash, depth, false);
      HighestCandidateIsFork(settings, store.db, candidates, tip.number, ancestor, record);
      // The source refuses an ancestor below the safe mark here; no candidate is.
      assert safe.None? || ancestor >= safe.value.number;
      var changed := RecheckTip(tip);
      if changed.Some? {
        store.Rollback();
        return Err(changed.value), None;
      }
      var id := store.RecordReorg(record);
      ghost var before := store.db;
      var outcome := store.Commit();
      if store.db != before {
        recorded := Some(record);
      }
      if outcome.Committed? {
        r := Ok((id, record));
      } else if outcome.RolledBack? {
        r := Err(TransactionFailed);
      } else {
        r := Err(OutcomeUnknown);
      }
    }

    /** The second recovery transaction: finds the ancestor again, deletes what is above
        it and moves the observed mark down. FindCommonAncestor returns no block time, so
        the mark is written with the zero time. */
    method RollBack(observed: Option<Mark>, safe: Option<Mark>, finalized: Option<Mark>, candidates: seq<Hash>,
                    id: int, ghost start: Database, ghost record: Reorg)
      returns (error: Option<StepError>, ghost recovered: bool)
      requires Configured() && LedgerInvariant(settings, start) && ForkRecord(settings, start, record)
      requires !record.completed && record.ancestorHash in candidates
      requires start.observed == observed && start.safe == safe && start.finalized == finalized
      requires store.db == start.(reorgs := start.reorgs + [record]) && id == |start.reorgs|
      requires forall n :: n in start.rows && start.rows[n].hash in candidates ==> n <= record.ancestorNumber
      modifies store
      ensures store.db == if recovered then AfterRecover(start, record) else old(store.db)
      ensures error.None? ==> recovered
      ensures error.Some? ==> Outage(error.value)
    {
      recovered := false;
      store.Begin();
      var found := store.FindCommonAncestor(candidates);
      assert store.work.rows[record.ancestorNumber].hash in candidates;
      // The source does not recheck; with one writer the answer is the recorded one.
      assert found == Some(record.ancestorNumber);
      var row := store.ReadBlock(found.value);
      store.DeleteCanonicalAbove(found.value);
      var refreshed := store.RefreshProjections();
      if !refreshed {
        store.Rollback();
        return Some(RoutingFailed), false;
      }
      store.WriteState(Some(Mark(found.value, row.value.hash, ZERO_TIME)), safe, finalized);
      var completed := store.CompleteReorg(id);
      assert completed;
      assert store.work == AfterRecover(start, record);
      ghost var before := store.db;
      var outcome := store.Commit();
      recovered := store.db != before || outcome.Committed?;
      if outcome.Committed? {
        error := None;
      } else if outcome.RolledBack? {
        error := Some(TransactionFailed);
      } else {
        error := Some(OutcomeUnknown);
      }
    }

    /** Candidates that come from one chain meet the rows exactly where the chains agree. */
    lemma CandidatesMeetChain(db: Database, tip: Header, candidates: seq<Hash>)
      requires Configured() && LedgerInvariant(settings, db) && db.observed.Some?
      requires source.view.Some? && Serves(tip) && ValidHeader(tip) && tip.number >= Floor(settings, db.safe)
      requires CandidateChain(candidates, tip.number)
      requires |candidates| == Min(settings.searchDepth, tip.number - Floor(settings, db.safe) + 1)
      requires forall i :: 0 <= i < |candidates| ==> candidates[i] == Keccak(source.view.value.chain[tip.number - i])
      ensures ForkInWindow(settings, db, source.view.value.chain, tip.number) <==>
                exists n :: n in db.rows && db.rows[n].hash in candidates
      ensures forall n :: n in db.rows && db.rows[n].hash in candidates ==>
                0 <= n <= tip.number && db.rows[n].hash == Keccak(source.view.value.chain[n])
      ensures db.observed.value.hash in candidates ==>
                db.observed.value.hash == Keccak(source.view.value.chain[db.observed.value.number])
    {
      var chain := source.view.value.chain;
      forall n | n in db.rows && db.rows[n].hash in candidates
        ensures n >= 0 && Floor(settings, db.safe) <= n <= tip.number && tip.number - n < settings.searchDepth
        ensures db.rows[n].hash == Keccak(chain[n])
      {
        var i :| 0 <= i < |candidates| && candidates[i] == db.rows[n].hash;
        assert n == tip.number - i;
      }
      if ForkInWindow(settings, db, chain, tip.number) {
        var n :| n in db.rows && n >= 0 && Floor(settings, db.safe) <= n <= tip.number
                 && tip.number - n < settings.searchDepth && db.rows[n].hash == Keccak(chain[n]);
        assert candidates[tip.number - n] == db.rows[n].hash;
      }
    }

    /** The two transactions of a recovery. */
    method CommitRecovery(observed: Option<Mark>, safe: Option<Mark>, finalized: Option<Mark>,
                          tip: Header, candidates: seq<Hash>)
      returns (error: Option<StepError>, ghost effect: Effect)
      requires Valid() && observed.Some?
      requires observed == store.db.observed && safe == store.db.safe && finalized == store.db.finalized
      requires ValidHeader(tip) && tip.number >= Floor(settings, safe)
      requires CandidateChain(candidates, tip.number) && candidates != [] && candidates[0] == Keccak(tip)
      requires |candidates| == Min(settings.searchDepth, tip.number - Floor(settings, safe) + 1)
      modifies store
      ensures RecoveryEffect(effect, tip) && ValidEffect(settings, old(store.db), effect)
      ensures effect.Record? || effect.Recover? ==>
                && effect.record.ancestorNumber in old(store.db).rows
                && old(store.db).rows[effect.record.ancestorNumber].hash == effect.record.ancestorHash
                && effect.record.ancestorHash in candidates
      ensures store.db == After(settings, old(store.db), effect)
      ensures error.None? ==> effect.Recover?
      ensures error.Some? ==> Permitted(error.value)
      ensures error == Some(NoCommonAncestor) ==>
                forall n :: n in old(store.db).rows ==> old(store.db).rows[n].hash !in candidates
      ensures error == Some(AncestorNotBelow) ==> observed.value.hash in candidates
      ensures error.Some? && source.view.Some? && Serves(tip) ==>
                Outage(error.value) || error.value == NoCommonAncestor || error.value == AncestorNotBelow
    {
      hide LedgerInvariant, ForkRecord, CandidateChain, Descends, AfterRecover, ValidSettings, Floor, ValidHeader, Min;
      ghost var start := store.db;
      var fork, recorded := RecordFork(observed, safe, tip, candidates);
      effect := if recorded.Some? then Record(recorded.value) else Nothing;
      if fork.Err? {
        return Some(fork.error), effect;
      }
      RecordedIsHighest(start, candidates, tip.number, recorded.value);
      ghost var recovered;
      error, recovered := RollBack(observed, safe, finalized, candidates, fork.value.0, start, recorded.value);
      if recovered {
        effect := Recover(recorded.value);
      }
    }

    ghost predicate RecoveryEffect(effect: Effect, tip: Header) {
      || effect.Nothing?
      || ((effect.Record? || effect.Recover?)
          && effect.record.tipNumber == tip.number && effect.record.tipHash == Keccak(tip))
    }

    /** recoverReorg. Whatever the provider answers, only a true fork is ever committed;
        against one chain, a recovery that the window allows fails only for reasons of the
        environment, and one that it does not allow changes nothing. */
    method RecoverReorg(observed: Option<Mark>, safe: Option<Mark>, finalized: Option<Mark>, tip: Header)
      returns (error: Option<StepError>, ghost effect: Effect)
      requires Valid() && ValidHeader(tip)
      requires observed == store.db.observed && safe == store.db.safe && finalized == store.db.finalized
      modifies store
      ensures RecoveryEffect(effect, tip)
      ensures error == Some(NoObservedTip) <==> observed.None?
      ensures error.Some? ==> !NeverMet(error.value)
      ensures ValidEffect(settings, old(store.db), effect)
      ensures store.db == After(settings, old(store.db), effect)
      ensures error.None? ==> effect.Recover?
      ensures source.view.Some? && Serves(tip) && observed.Some? && error.Some?
              && observed.value.number <= tip.number
              && observed.value.hash != Keccak(source.view.value.chain[observed.value.number])
              && (exists n :: n in old(store.db).rows && settings.startBlock <= n <= tip.number
                              && tip.number - n < settings.searchDepth
                              && (safe.Some? ==> safe.value.number <= n)
                              && old(store.db).rows[n].hash == Keccak(source.view.value.chain[n])) ==>
                Outage(error.value)
      ensures source.view.Some? && Serves(tip)
              && (forall n :: n in old(store.db).rows && settings.startBlock <= n <= tip.number
                              && tip.number - n < settings.searchDepth
                              && (safe.Some? ==> safe.value.number <= n) ==>
                    old(store.db).rows[n].hash != Keccak(source.view.value.chain[n])) ==>
                (error.Some? && effect.Nothing?)
    {
      hide LedgerInvariant, Outage, ForkRecord, CandidateChain, AfterRecover, ValidIngest;
      effect := Nothing;
      if observed.None? {
        return Some(NoObservedTip), Nothing;
      }
      var floor := Floor(settings, safe);
      if tip.number < floor {
        return Some(SafeViolation), Nothing;
      }
      var candidates := CollectCandidates(tip, floor);
      if candidates.Err? {
        return Some(candidates.error), Nothing;
      }
      if source.view.Some? && Serves(tip) {
        CandidatesMeetChain(store.db, tip, candidates.value);
      }
      error, effect := CommitRecovery(observed, safe, finalized, tip, candidates.value);
    }

    lemma RecordedIsHighest(db: Database, candidates: seq<Hash>, top: int, record: Reorg)
      requires LedgerInvariant(settings, db) && ForkRecord(settings, db, record)
      requires CandidateChain(candidates, top) && candidates != [] && record.tipNumber == top
      requires record.tipHash == candidates[0]
      ensures forall n :: n in db.rows && db.rows[n].hash in candidates ==> n <= record.ancestorNumber
    {
      forall n | n in db.rows && db.rows[n].hash in candidates ensures n <= record.ancestorNumber {
        var k :| 0 <= k < |candidates| && candidates[k] == db.rows[n].hash;
        CandidatesDescend(candidates, top, k);
      }
    }

    // ---- the parts of a step -------------------------------------------------------------

    /** Compares the safe and then the observed mark with the provider's headers. */
    method CheckSaved(safe: Option<Mark>, observed: Option<Mark>) returns (r: SavedCheck)
      requires Configured()
      requires (safe.Some? ==> safe.value.number >= 0) && (observed.Some? ==> observed.value.number >= 0)
      ensures r.SavedFailed? ==> r.error in {RpcUnhealthy, SafeViolation, InvalidHeader} && Permitted(r.error)
      ensures r.SavedDiverged? ==> ValidHeader(r.tip) && observed.Some?
      ensures source.view.Some? ==>
                var chain := source.view.value.chain;
                match r
                case Consistent => AgreesAt(safe, chain) && AgreesAt(observed, chain)
                case SavedDiverged(tip) =>
                  && AgreesAt(safe, chain) && 0 <= observed.value.number < |chain|
                  && tip == chain[observed.value.number] && observed.value.hash != Keccak(tip)
                case SavedFailed(error) =>
                  || (error == RpcUnhealthy
                      && (Outage(error) || MarkNumber(observed) >= |chain| || MarkNumber(safe) >= |chain|))
                  || (error == SafeViolation
                      && (!AgreesAt(safe, chain)
                          || (!AgreesAt(observed, chain) && MarkNumber(observed) <= MarkNumber(safe))))
    {
      var marks := [safe, observed];
      for i := 0 to 2
        invariant source.view.Some? ==> forall j :: 0 <= j < i ==> AgreesAt(marks[j], source.view.value.chain)
      {
        if marks[i].Some? {
          var saved := marks[i].value;
          var remote := source.HeaderByNumber(saved.number);
          if remote.Unavailable? {
            return SavedFailed(RpcUnhealthy);
          }
          if Keccak(remote.value) != saved.hash {
            assert source.view.Some? ==> !AgreesAt(marks[i], source.view.value.chain);
            if safe.Some? && saved.number <= safe.value.number {
              return SavedFailed(SafeViolation);
            }
            if !ValidHeader(remote.value) {
              return SavedFailed(InvalidHeader);
            }
            assert source.view.Some? && i == 1 ==> AgreesAt(marks[0], source.view.value.chain);
            return SavedDiverged(remote.value);
          }
        }
      }
      assert source.view.Some? ==>
        AgreesAt(marks[0], source.view.value.chain) && AgreesAt(marks[1], source.view.value.chain);
      return Consistent;
    }

    /** Reads one header of the chunk and checks it against the block before it. */
    method ReadChunkHeader(number: int, previous: Option<Mark>, safe: Option<Mark>) returns (r: HeaderCheck)
      requires Configured() && (previous.Some? ==> previous.value.number == number - 1)
      ensures r.NextHeader? ==> ValidHeader(r.header) && r.header.number == number
                                && (previous.Some? ==> r.header.parent == previous.value.hash)
      ensures r.HeaderFailed? ==> r.error in {RpcUnhealthy, SafeViolation, InvalidHeader, HeaderNumber}
      ensures r.HeaderDiverged? ==> ValidHeader(r.tip) && previous.Some?
      ensures source.view.Some? && AgreesAt(previous, source.view.value.chain) ==>
                if r.NextHeader? then 0 <= number < |source.view.value.chain| && r.header == source.view.value.chain[number]
                else r == HeaderFailed(RpcUnhealthy) && (!source.reliable || !(0 <= number < |source.view.value.chain|))
    {
      var answer := source.HeaderByNumber(number);
      if answer.Unavailable? {
        return HeaderFailed(RpcUnhealthy);
      }
      var header := answer.value;
      if !ValidHeader(header) {
        return HeaderFailed(InvalidHeader);
      }
      if header.number != number {
        return HeaderFailed(HeaderNumber);
      }
      if source.view.Some? && number > 0 {
        assert LinkAt(source.view.value.chain, number);
      }
      if previous.Some? && header.parent != previous.value.hash {
        if safe.Some? && previous.value.number <= safe.value.number {
          return HeaderFailed(SafeViolation);
        }
        return HeaderDiverged(header);
      }
      return NextHeader(header);
    }

    /** Reads the headers of the next chunk, each linked to the one before. */
    method BuildChunk(safe: Option<Mark>, observed: Option<Mark>, latest: int)
      returns (r: ChunkCheck, ghost chunk: seq<Header>)
      requires Configured() && NextAfter(settings, observed) >= 0
      ensures r.ChunkFailed? ==> r.error in {RpcUnhealthy, SafeViolation, InvalidHeader, HeaderNumber} && Permitted(r.error)
      ensures r.ChunkDiverged? ==> ValidHeader(r.tip) && (observed.None? ==> settings.chunkSize >= 2)
      ensures r.Built? ==>
                var from := NextAfter(settings, observed);
                && r.to == ChunkEnd(settings, from, latest)
                && |chunk| == BlockCount(from, r.to)
                && ChunkOn(observed, from, chunk)
                && r.blocks == UpsertRows(map[], chunk)
      ensures source.view.Some? && AgreesAt(observed, source.view.value.chain) ==>
                if r.Built? then ChunkOfChain(source.view.value.chain, NextAfter(settings, observed), chunk)
                else r == ChunkFailed(RpcUnhealthy) && (latest < |source.view.value.chain| ==> Outage(r.error))
    {
      var from := NextAfter(settings, observed);
      var to := ChunkEnd(settings, from, latest);
      var blocks: map<int, Row> := map[];
      var previous := observed;
      chunk := [];
      ghost var chain := if source.view.Some? && AgreesAt(observed, source.view.value.chain)
                         then Some(source.view.value.chain) else None;
      var number := from;
      while number <= to
        invariant number <= to + 1 || chunk == []
        invariant ChunkRead(chain, observed, from, number, chunk, blocks, previous)
        decreases (to - number)
      {
        ChunkReadHead(chain, observed, from, number, chunk, blocks, previous);
        var next := ReadChunkHeader(number, previous, safe);
        if next.HeaderFailed? {
          return ChunkFailed(next.error), chunk;
        }
        if next.HeaderDiverged? {
          return ChunkDiverged(next.tip), chunk;
        }
        ChunkReadExtends(chain, observed, from, number, chunk, blocks, previous, next.header);
        blocks := blocks[number := RowOf(next.header)];
        previous := Some(MarkOf(number, RowOf(next.header)));
        chunk := chunk + [next.header];
        number := number + 1;
      }
      r := Built(to, blocks);
    }

    /** The emitters of the persisted identities; only engine version 1 is supported. */
    method BuildEmitters(identities: set<TokenIdentity>) returns (r: Result<Emitters, StepError>)
      ensures if forall i :: i in identities ==> i.engineVersion == 1 then r == Ok(EmittersFor(factory, identities))
              else r == Err(UnsupportedEngine)
    {
      var emitters := NoEmitters(factory);
      var rest := identities;
      while rest != {}
        invariant rest <= identities
        invariant forall i :: i in identities - rest ==> i.engineVersion == 1
        invariant emitters == EmittersFor(factory, identities - rest)
        decreases rest
      {
        var identity :| identity in rest;
        if identity.engineVersion != 1 {
          return Err(UnsupportedEngine);
        }
        assert identities - (rest - {identity}) == (identities - rest) + {identity};
        emitters := Emitters(factory, emitters.curves + {identity.curve}, emitters.tokens + {identity.token},
                             emitters.pairs + {identity.pair});
        rest := rest - {identity};
      }
      assert identities - rest == identities;
      return Ok(emitters);
    }

    /** Checks each log against the chunk and decodes it. */
    method DecodeLogs(logs: seq<Log>, emitters: Emitters, blocks: map<int, Row>)
      returns (r: Result<seq<Event>, StepError>)
      requires forall n :: n in blocks ==> RowOfHeader(n, blocks[n])
      ensures r.Err? ==> r.error in {InvalidCoordinates, CanonicalMismatch} || r.error.DecodingFailed?
      ensures r.Err? && r.error == CanonicalMismatch ==>
                exists l :: l in logs && (l.number !in blocks || blocks[l.number].hash != l.blockHash)
      ensures r == Err(InvalidCoordinates) ==>
                exists l :: l in logs && (l.number > MAX_INT64 || l.entry.txIndex > MAX_INT32 || l.entry.index > MAX_INT32
                                          || l.removed)
      ensures r.Err? && r.error.DecodingFailed? ==> exists l :: l in logs && Decode(l, emitters) == Err(r.error.cause)
      ensures r.Ok? ==> |r.value| == |logs| && forall i :: 0 <= i < |logs| ==> DecodedFrom(logs[i], blocks, r.value[i])
    {
      var decoded: seq<Event> := [];
      for i := 0 to |logs|
        invariant |decoded| == i
        invariant forall j :: 0 <= j < i ==> DecodedFrom(logs[j], blocks, decoded[j])
      {
        var log := logs[i];
        if log.number > MAX_INT64 || log.entry.txIndex > MAX_INT32 || log.entry.index > MAX_INT32 || log.removed {
          assert log in logs;
          return Err(InvalidCoordinates);
        }
        if log.number !in blocks || blocks[log.number].hash != log.blockHash {
          assert log in logs;
          return Err(CanonicalMismatch);
        }
        var entity := Decode(log, emitters);
        if entity.Err? {
          assert log in logs;
          return Err(DecodingFailed(entity.error));
        }
        var event := Event(entity.value, log.number, log.blockHash, blocks[log.number].time, log.entry.txIndex,
                           log.entry.txHash, log.entry.index, log.entry.address, log.entry.payload);
        decoded := decoded + [event];
      }
      return Ok(decoded);
    }

    /** What discovery and decoding fail by on one chain is a refusal of its logs. */
    lemma DecodingIsRefused(hs: seq<Header>, em: Emitters, logs: seq<Log>, after: Emitters, e: StepError)
      requires Configured() && source.view.Some? && Linked(hs) && hs != []
      requires (forall l :: l in logs ==> WantedLog(hs, em, l)) && EmittersWithLaunches(hs, em, after)
      requires e == InvalidCoordinates ==>
                 exists l :: l in logs && (l.number > MAX_INT64 || l.entry.txIndex > MAX_INT32
                                           || l.entry.index > MAX_INT32 || l.removed)
      requires e.DecodingFailed? ==> exists l :: l in logs && Decode(l, after) == Err(e.cause)
      ensures e == InvalidCoordinates || e.DecodingFailed? ==> Refused(hs, em, e)
    {
      hide Decode, EmittersWithLaunches, Configured;
      if e == InvalidCoordinates {
        var l :| l in logs && (l.number > MAX_INT64 || l.entry.txIndex > MAX_INT32
                               || l.entry.index > MAX_INT32 || l.removed);
        var i, entry := LogHome(hs, l);
        assert WantedLog(hs, em, l);
      }
    }

    /** Discovers the logs of a chunk with the emitters of the persisted identities. */
    method DiscoverChunk(to: int, identities: set<TokenIdentity>, from: int, ghost chunk: seq<Header>)
      returns (r: Result<DiscoveryResult, StepError>)
      requires Configured() && chunk != [] && Linked(chunk) && chunk[0].number == from && to == from + |chunk| - 1
      ensures r == Err(UnsupportedEngine) ==> exists i :: i in identities && i.engineVersion != 1
      ensures r.Err? ==> r.error == UnsupportedEngine || r.error.DiscoveryFailed?
      ensures source.view.Some? && ChunkOfChain(source.view.value.chain, from, chunk) ==>
                var em := EmittersFor(discovery.factory, identities);
                if r.Ok? then (forall l :: l in r.value.logs <==> WantedLog(chunk, em, l))
                              && EmittersWithLaunches(chunk, em, r.value.emitters)
                else r.error == UnsupportedEngine || Refused(chunk, em, r.error)
    {
      hide WantedLog, SegmentLogs, EmittersWithLaunches, DistinctCoordinates, UndecodableIn, AllDecodable;
      assert ValidHeader(chunk[|chunk| - 1]) && chunk[|chunk| - 1].number == to;
      var emitters :- BuildEmitters(identities);
      var discovered := discovery.Discover(from, to, emitters);
      if source.view.Some? && ChunkOfChain(source.view.value.chain, from, chunk) {
        assert source.view.value.chain[from..to + 1] == chunk;
        assert emitters.(factory := discovery.factory) == EmittersFor(discovery.factory, identities);
      }
      if discovered.Err? {
        return Err(DiscoveryFailed(discovered.error));
      }
      return Ok(discovered.value);
    }

    /** Discovers, checks and decodes the events of a chunk, then rechecks its last header. */
    method GatherEvents(to: int, blocks: map<int, Row>, identities: set<TokenIdentity>,
                        from: int, ghost chunk: seq<Header>)
      returns (r: Result<seq<Event>, StepError>)
      requires Configured() && chunk != [] && Linked(chunk) && chunk[0].number == from && to == from + |chunk| - 1
      requires blocks == UpsertRows(map[], chunk)
      ensures r.Ok? ==> forall e :: e in r.value ==> InChunk(chunk, e) && Decodable(e)
      ensures r.Ok? && source.view.Some? && ChunkOfChain(source.view.value.chain, from, chunk) ==>
                CompleteEvents(chunk, EmittersFor(discovery.factory, identities), r.value)
      ensures r.Ok? && source.view.Some? ==>
                to < |source.view.value.chain| && to in blocks && blocks[to].hash == Keccak(source.view.value.chain[to])
      ensures r == Err(UnsupportedEngine) ==> exists i :: i in identities && i.engineVersion != 1
      ensures r.Err? ==> Environmental(r.error) || r.error == CanonicalMismatch || r.error == UnsupportedEngine
      ensures r.Err? && source.view.Some? && ChunkOfChain(source.view.value.chain, from, chunk) ==>
                Outage(r.error) || r.error == UnsupportedEngine
                || Refused(chunk, EmittersFor(discovery.factory, identities), r.error)
    {
      hide WantedLog, InChunk, DecodedFrom, Decodable, SegmentLogs, CompleteEvents, Refused, EmittersWithLaunches;
      ChunkBlocks(chunk);
      assert chunk[|chunk| - 1].number == to;
      ghost var em := EmittersFor(discovery.factory, identities);
      ghost var served := source.view.Some? && ChunkOfChain(source.view.value.chain, from, chunk);
      var discovered :- DiscoverChunk(to, identities, from, chunk);
      if served {
        WantedInBlocks(chunk, em, discovered.logs, blocks);
      }
      var decoded := DecodeLogs(discovered.logs, discovered.emitters, blocks);
      if decoded.Err? {
        if served {
          DecodingIsRefused(chunk, em, discovered.logs, discovered.emitters, decoded.error);
        }
        return Err(decoded.error);
      }
      var events := decoded.value;
      DecodedInChunk(chunk, discovered.logs, blocks, events);
      var check := source.HeaderByNumber(to);
      if check.Unavailable? {
        return Err(RpcUnhealthy);
      }
      if Keccak(check.value) != blocks[to].hash {
        return Err(CanonicalMismatch);
      }
      if served {
        DecodedIsComplete(chunk, em, discovered.logs, blocks, events);
      }
      return Ok(events);
    }

    /** The new value of a watermark: the processed part of the reported head, once the
        local and the remote block there agree. */
    method PromotionTarget(head: Header, mark: Option<Mark>, observed: int, blocks: map<int, Row>)
      returns (r: Result<Option<Mark>, StepError>)
      requires Configured()
      modifies store
      ensures store.db == old(store.db)
      ensures r.Ok? ==>
                r.value == Promoted(old(store.db).rows + blocks, mark, settings.startBlock, observed, head.number)
      ensures r.Ok? && r.value != mark ==>
                r.value.Some? && (r.value.value.number == head.number ==> r.value.value.hash == Keccak(head))
      ensures r.Ok? && r.value != mark && source.view.Some? ==>
                && 0 <= r.value.value.number < |source.view.value.chain|
                && r.value.value.hash == Keccak(source.view.value.chain[r.value.value.number])
      ensures r.Err? ==> r.error in {RpcUnhealthy, CanonicalMismatch, TransactionFailed, OutcomeUnknown}
                         || (r.error.MissingPromotionBlock?
                             && settings.startBlock <= r.error.number <= observed
                             && r.error.number !in old(store.db).rows + blocks)
      ensures r.Err? && Serves(head) ==>
                Outage(r.error) || r.error == CanonicalMismatch || r.error.MissingPromotionBlock?
      ensures r.Err? && store.reliable ==> r.error !in {TransactionFailed, OutcomeUnknown}
      ensures r == Err(CanonicalMismatch) && source.view.Some? ==>
                !RowsOnChain(old(store.db).rows + blocks, source.view.value.chain)
                || !(0 <= head.number < |source.view.value.chain| && head == source.view.value.chain[head.number])
    {
      var number := Min(head.number, observed);
      if number < settings.startBlock || (mark.Some? && number <= mark.value.number) {
        return Ok(mark);
      }
      var local := if number in blocks then Some(blocks[number]) else None;
      if local.None? {
        store.Begin();
        local := store.ReadBlock(number);
        var outcome := store.Commit();
        if !outcome.Committed? {
          return Err(if outcome.RolledBack? then TransactionFailed else OutcomeUnknown);
        }
      }
      if local.None? {
        return Err(MissingPromotionBlock(number));
      }
      assert local.value == (old(store.db).rows + blocks)[number];
      var remote := source.HeaderByNumber(number);
      if remote.Unavailable? {
        return Err(RpcUnhealthy);
      }
      if Keccak(remote.value) != local.value.hash || (number == head.number && local.value.hash != Keccak(head)) {
        return Err(CanonicalMismatch);
      }
      return Ok(Some(MarkOf(number, local.value)));
    }

    /** The new safe and finalized marks. Every row that a promotion asks for is there, so
        no promotion block is ever missing. */
    method PlanPromotions(heads: Heads, safe: Option<Mark>, finalized: Option<Mark>, observed: int,
                          blocks: map<int, Row>)
      returns (r: Result<(Option<Mark>, Option<Mark>), StepError>)
      requires Configured()
      requires forall n :: settings.startBlock <= n <= observed ==> n in store.db.rows + blocks
      modifies store
      ensures store.db == old(store.db)
      ensures r.Ok? ==> r.value == (
                Promoted(store.db.rows + blocks, safe, settings.startBlock, observed, heads.safe.number),
                Promoted(store.db.rows + blocks, finalized, settings.startBlock, observed, heads.finalized.number))
      ensures r.Err? ==> Environmental(r.error) || r.error == CanonicalMismatch
      ensures r.Err? && Serves(heads.safe) && Serves(heads.finalized) ==> Outage(r.error) || r.error == CanonicalMismatch
      ensures r == Err(CanonicalMismatch) && source.view.Some? && Serves(heads.safe) && Serves(heads.finalized) ==>
                !RowsOnChain(store.db.rows + blocks, source.view.value.chain)
    {
      var newSafe :- PromotionTarget(heads.safe, safe, observed, blocks);
      var newFinalized :- PromotionTarget(heads.finalized, finalized, observed, blocks);
      return Ok((newSafe, newFinalized));
    }

    /** The chunk transaction: block rows, events, promotion and watermarks, all or nothing. */
    method CommitChunk(from: int, to: int, blocks: map<int, Row>, events: seq<Event>,
                       observed: Option<Mark>, safe: Option<Mark>, finalized: Option<Mark>,
                       previousSafe: int, previousFinalized: int, ghost effect: Effect)
      returns (error: Option<StepError>, ghost committed: bool)
      requires Valid() && effect.Ingest? && effect.events == events
      requires ChunkFits(settings, store.db, effect.chunk, events)
      requires blocks == UpsertRows(map[], effect.chunk)
      requires from == NextBlock(settings, store.db) && |effect.chunk| == BlockCount(from, to)
      requires observed.Some? && observed == AfterIngest(settings, store.db, effect).observed
      requires safe == AfterIngest(settings, store.db, effect).safe
      requires finalized == AfterIngest(settings, store.db, effect).finalized
      requires previousSafe == MarkNumber(store.db.safe) && previousFinalized == MarkNumber(store.db.finalized)
      modifies store
      ensures store.db == if committed then AfterIngest(settings, old(store.db), effect) else old(store.db)
      ensures committed ==> InsertEvents(old(store.db).events, events).Some?
      ensures error.None? ==> committed
      ensures error.Some? ==> Outage(error.value) || (error.value.RoutingFailed? && KeysClash(old(store.db).events, events))
    {
      committed := false;
      ghost var start := store.db;
      ghost var chunk := effect.chunk;
      store.Begin();
      UpsertBlocks(from, to, blocks, chunk);
      var routed := RouteEvents(events);
      if !routed {
        store.Rollback();
        return Some(RoutingFailed), false;
      }
      store.PromoteBlocks(safe, finalized, previousSafe, previousFinalized);
      store.WriteState(observed, safe, finalized);
      assert store.work == AfterIngest(settings, start, effect);
      ghost var before := store.db;
      var outcome := store.Commit();
      committed := store.db != before || outcome.Committed?;
      if outcome.Committed? {
        error := None;
      } else if outcome.RolledBack? {
        error := Some(TransactionFailed);
      } else {
        error := Some(OutcomeUnknown);
      }
    }

    /** Inserts the rows of the chunk. Neither the identity conflict nor the unchanged row
        that the source guards against can occur on a valid ledger. */
    method UpsertBlocks(from: int, to: int, blocks: map<int, Row>, ghost chunk: seq<Header>)
      requires Configured() && RowsLinked(settings, store.work) && MarksOrdered(store.work)
      requires ChunkFits(settings, store.work, chunk, [])
      requires from == NextBlock(settings, store.work) && |chunk| == BlockCount(from, to)
      requires blocks == UpsertRows(map[], chunk)
      modifies store
      ensures store.db == old(store.db)
      ensures store.work == old(store.work).(rows := UpsertRows(old(store.work).rows, chunk))
    {
      hide RowsLinked, MarksOrdered, UpsertRows, Continues, ChunkFits;
      ghost var start := store.work;
      FittingChunkContinues(settings, start, chunk, []);
      ChunkStart(settings, start, chunk);
      NoRows(start.rows);
      assert chunk[..0] == [];
      var number := from;
      while number <= to
        invariant from <= number <= from + |chunk|
        invariant store.db == old(store.db)
        invariant store.work == start.(rows := UpsertRows(start.rows, chunk[..number - from]))
        decreases (to - number)
      {
        FreshRow(start.rows, settings.startBlock, from, chunk, number - from);
        ChunkRow(chunk, number - from);
        var outcome := store.UpsertIndexedBlock(number, blocks[number]);
        assert outcome.Changed?;
        assert chunk[..number - from + 1][..number - from] == chunk[..number - from];
        number := number + 1;
      }
      assert chunk[..number - from] == chunk;
    }

    /** Ingests the events in order; an event conflict or a failing projection stops the
        transaction. */
    method RouteEvents(events: seq<Event>) returns (ok: bool)
      requires EventsKeyed(store.work.events)
      modifies store
      ensures store.db == old(store.db)
      ensures !ok ==> !store.reliable || KeysClash(old(store.work).events, events)
      ensures ok ==> InsertEvents(old(store.work).events, events).Some?
                     && store.work == old(store.work).(events := InsertEvents(old(store.work).events, events).value)
    {
      ghost var start := store.work;
      assert events[..0] == [];
      for i := 0 to |events|
        invariant store.db == old(store.db)
        invariant InsertEvents(start.events, events[..i]).Some?
        invariant store.work == start.(events := InsertEvents(start.events, events[..i]).value)
      {
        assert events[..i + 1][..i] == events[..i];
        var inserted := store.IngestEvent(events[i]);
        if inserted.EventConflict? {
          InsertEventsAdds(start.events, events[..i]);
          ConflictIsClash(start.events, events, i);
          return false;
        }
      }
      assert events[..|events|] == events;
      ok := store.RefreshProjections();
    }

    // ---- the step ------------------------------------------------------------------------

    ghost predicate ReadsHeads(effect: Effect, heads: Heads, chunk: seq<Header>) {
      && effect.Ingest? && effect.chunk == chunk
      && effect.safeHead == heads.safe.number && effect.finalizedHead == heads.finalized.number
    }

    /** The provider serves one chain, and what the step has read of it lies on it. */
    ghost predicate Served(heads: Heads, observed: Option<Mark>, from: int, chunk: seq<Header>)
      requires from >= 0
    {
      && source.view.Some? && ChunkOfChain(source.view.value.chain, from, chunk)
      && AgreesAt(observed, source.view.value.chain) && Serves(heads.safe) && Serves(heads.finalized)
    }

    /** The events, promotions and watermarks that a read chunk is to be committed with;
        None when there is no chunk and nothing observed yet. */
    method PlanChunk(heads: Heads, observed: Option<Mark>, safe: Option<Mark>, finalized: Option<Mark>,
                     identities: set<TokenIdentity>, from: int, to: int, blocks: map<int, Row>,
                     ghost chunk: seq<Header>)
      returns (r: Result<Option<Plan>, StepError>)
      requires Valid() && from == NextBlock(settings, store.db) && from >= 0
      requires observed == store.db.observed && identities == Identities(store.db)
      requires ChunkOn(observed, from, chunk) && |chunk| == BlockCount(from, to) <= settings.chunkSize
      requires blocks == UpsertRows(map[], chunk)
      modifies store
      ensures store.db == old(store.db)
      ensures r.Ok? ==> (r.value.None? <==> observed.None? && chunk == [])
      ensures r.Ok? && r.value.Some? ==>
                var plan := r.value.value;
                && ChunkFits(settings, store.db, chunk, plan.events)
                && Some(plan.observed) == ChunkHead(observed, chunk)
                && plan.safe == Promoted(UpsertRows(store.db.rows, chunk), safe, settings.startBlock,
                                         plan.observed.number, heads.safe.number)
                && plan.finalized == Promoted(UpsertRows(store.db.rows, chunk), finalized, settings.startBlock,
                                              plan.observed.number, heads.finalized.number)
      ensures r.Err? ==> Environmental(r.error) || r.error == CanonicalMismatch
      ensures Served(heads, observed, from, chunk) && r.Err? ==>
                Outage(r.error)
                || (chunk != [] && Refused(chunk, KnownEmitters(discovery.factory, store.db), r.error))
      ensures Served(heads, observed, from, chunk) && r.Ok? && r.value.Some? ==>
                CompleteEvents(chunk, KnownEmitters(discovery.factory, store.db), r.value.value.events)
    {
      IdentitiesDecoded(settings, store.db);
      var events: seq<Event> := [];
      var newObserved := observed;
      ChunkNotEmpty(from, chunk);
      if blocks != map[] {
        events :- GatherEvents(to, blocks, identities, from, chunk);
        newObserved := Some(MarkOf(to, blocks[to]));
      } else {
        NothingWanted(KnownEmitters(discovery.factory, store.db));
      }
      if newObserved.None? {
        return Ok(None);
      }
      assert ChunkFits(settings, store.db, chunk, events);
      PlannedRows(settings, store.db, chunk);
      if Served(heads, observed, from, chunk) {
        RowsFollowChain(settings, store.db, chunk, source.view.value.chain);
      }
      var promoted :- PlanPromotions(heads, safe, finalized, newObserved.value.number, blocks);
      return Ok(Some(Plan(events, newObserved.value, promoted.0, promoted.1)));
    }

    /** Everything a step does once its chunk is read: events, promotion, commit. */
    method IngestChunk(heads: Heads, observed: Option<Mark>, safe: Option<Mark>, finalized: Option<Mark>,
                       identities: set<TokenIdentity>, from: int, to: int, blocks: map<int, Row>,
                       ghost chunk: seq<Header>)
      returns (result: StepResult, ghost effect: Effect)
      requires Valid() && from == NextBlock(settings, store.db) && from >= 0
      requires observed == store.db.observed && safe == store.db.safe && finalized == store.db.finalized
      requires identities == Identities(store.db)
      requires 0 <= heads.finalized.number <= heads.safe.number
      requires ChunkOn(observed, from, chunk) && |chunk| == BlockCount(from, to) <= settings.chunkSize
      requires blocks == UpsertRows(map[], chunk)
      modifies store
      ensures effect.Nothing? || ReadsHeads(effect, heads, chunk)
      ensures ValidEffect(settings, old(store.db), effect)
      ensures store.db == After(settings, old(store.db), effect)
      ensures result.Done? ==> result.advanced == (chunk != [])
      ensures result.Done? ==> if observed.None? && chunk == [] then effect.Nothing? else effect.Ingest?
      ensures result.Failed? ==> Permitted(result.error)
      ensures result.Failed? ==> Environmental(result.error) || result.error == CanonicalMismatch
      ensures Served(heads, observed, from, chunk) && result.Failed? ==>
                Outage(result.error) || Blocked(chunk, old(store.db), result.error)
      ensures effect.Ingest? ==>
                MarksMoved(settings, old(store.db), store.db, heads.safe.number, heads.finalized.number)
      ensures Served(heads, observed, from, chunk) && effect.Ingest? ==>
                CompleteEvents(chunk, KnownEmitters(discovery.factory, old(store.db)), effect.events)
    {
      hide Promoted, UpsertRows, StatusesMatch, EventsHoused, CompleteEvents, MarksMoved, InsertEvents, Refused;
      ghost var start := store.db;
      var planned := PlanChunk(heads, observed, safe, finalized, identities, from, to, blocks, chunk);
      if planned.Err? {
        return Failed(planned.error), Nothing;
      }
      if planned.value.None? {
        return Done(false), Nothing;
      }
      var plan := planned.value.value;
      effect := Ingest(chunk, plan.events, heads.safe.number, heads.finalized.number);
      var error, committed := CommitChunk(from, to, blocks, plan.events, Some(plan.observed), plan.safe, plan.finalized,
                                          MarkNumber(safe), MarkNumber(finalized), effect);
      if committed {
        IngestMovesMarks(settings, start, effect);
      } else {
        effect := Nothing;
      }
      ChunkNotEmpty(from, chunk);
      result := if error.Some? then Failed(error.value) else Done(blocks != map[]);
    }

    /** The transaction that opens a step. */
    method ReadLedger() returns (r: Result<Saved, StepError>)
      modifies store
      ensures store.db == old(store.db)
      ensures r.Ok? ==> r.value == Saved(store.db.observed, store.db.safe, store.db.finalized, Identities(store.db))
      ensures r.Err? ==> Outage(r.error) && Permitted(r.error)
    {
      store.Begin();
      var observed, safe, finalized := store.ReadState();
      var identities := store.TokenIdentities();
      var outcome := store.Commit();
      if !outcome.Committed? {
        return Err(if outcome.RolledBack? then TransactionFailed else OutcomeUnknown);
      }
      return Ok(Saved(observed, safe, finalized, identities));
    }

    /** Reads the heads: valid headers, finalized at most safe at most latest. */
    method ReadCheckedHeads() returns (r: Result<Heads, StepError>)
      requires Configured()
      ensures r.Err? ==> r.error in {RpcUnhealthy, InvalidHeader, HeadOrdering} && Permitted(r.error)
      ensures r.Ok? ==> 0 <= r.value.finalized.number <= r.value.safe.number <= r.value.latest.number
      ensures source.view.Some? && r.Err? ==> Outage(r.error)
      ensures source.view.Some? && r.Ok? ==> HeadsOf(source.view.value, r.value)
    {
      var answer := source.ReadHeads();
      if answer.Unavailable? {
        return Err(RpcUnhealthy);
      }
      var heads := answer.value;
      if !ValidHeader(heads.latest) || !ValidHeader(heads.safe) || !ValidHeader(heads.finalized) {
        return Err(InvalidHeader);
      }
      if heads.safe.number > heads.latest.number || heads.finalized.number > heads.safe.number {
        return Err(HeadOrdering);
      }
      return Ok(heads);
    }

    /** Reads the next chunk and ingests it, or recovers when it does not link. */
    method Advance(heads: Heads, saved: Saved) returns (result: StepResult, ghost effect: Effect)
      requires Valid()
      requires saved == Saved(store.db.observed, store.db.safe, store.db.finalized, Identities(store.db))
      requires 0 <= heads.finalized.number <= heads.safe.number
      requires source.view.Some? ==> HeadsOf(source.view.value, heads) && AgreesAt(saved.observed, source.view.value.chain)
      modifies store
      ensures ValidEffect(settings, old(store.db), effect)
      ensures store.db == After(settings, old(store.db), effect)
      ensures result.Done? ==> Advances(effect) == result.advanced
      ensures result.Failed? ==> !NeverMet(result.error)
      ensures result == Failed(NoObservedTip) ==>
                old(store.db).observed.None? && source.view.None? && settings.chunkSize >= 2
      ensures source.view.Some? && effect.Ingest? ==>
                CompleteEvents(effect.chunk, KnownEmitters(discovery.factory, old(store.db)), effect.events)
      ensures source.view.Some? && (result.Done? || Commits(effect)) ==>
                Settled(settings, source.view.value, old(store.db), effect)
      ensures source.view.Some? && result.Failed? ==>
                Outage(result.error) || Stopped(source.view.value.chain, old(store.db), result.error)
    {
      hide CompleteEvents, ForkRecord, UpsertRows, Identities, Outage, NeverMet, Environmental, Blocked, MarksMoved;
      var check, chunk := BuildChunk(saved.safe, saved.observed, heads.latest.number);
      if check.ChunkFailed? {
        return Failed(check.error), Nothing;
      }
      if check.ChunkDiverged? {
        var error, recovery := RecoverReorg(saved.observed, saved.safe, saved.finalized, check.tip);
        effect := recovery;
        result := if error.Some? then Failed(error.value) else Done(true);
        return;
      }
      var from := NextAfter(settings, saved.observed);
      if source.view.Some? {
        ChunkIsExpected(settings, saved.observed, source.view.value.chain, chunk);
      }
      result, effect := IngestChunk(heads, saved.observed, saved.safe, saved.finalized, saved.identities,
                                    from, check.to, check.blocks, chunk);
    }

    /** Compares the saved marks with the provider, then recovers or advances. */
    method FollowChain(heads: Heads, saved: Saved) returns (result: StepResult, ghost effect: Effect)
      requires Valid()
      requires saved == Saved(store.db.observed, store.db.safe, store.db.finalized, Identities(store.db))
      requires 0 <= heads.finalized.number <= heads.safe.number
      requires source.view.Some? ==> HeadsOf(source.view.value, heads)
      modifies store
      ensures ValidEffect(settings, old(store.db), effect)
      ensures store.db == After(settings, old(store.db), effect)
      ensures result.Done? ==> Advances(effect) == result.advanced
      ensures result.Failed? ==> !NeverMet(result.error)
      ensures result == Failed(NoObservedTip) ==>
                old(store.db).observed.None? && source.view.None? && settings.chunkSize >= 2
      ensures source.view.Some? && effect.Ingest? ==>
                CompleteEvents(effect.chunk, KnownEmitters(discovery.factory, old(store.db)), effect.events)
      ensures source.view.Some? && (result.Done? || Commits(effect)) ==>
                Settled(settings, source.view.value, old(store.db), effect)
      ensures source.view.Some? && Continuable(settings, old(store.db), source.view.value.chain) && result.Failed? ==>
                Outage(result.error) || Stopped(source.view.value.chain, old(store.db), result.error)
      ensures source.view.Some? && !Continuable(settings, old(store.db), source.view.value.chain) ==>
                result.Failed? && effect.Nothing?
    {
      hide CompleteEvents, ForkRecord, UpsertRows, Identities, Outage, NeverMet, Stopped, InsertEvents, StatusesMatch,
           EventsHoused;
      if source.view.Some? {
        ObservedCoversSafe(settings, store.db, source.view.value.chain);
      }
      var check := CheckSaved(saved.safe, saved.observed);
      if check.SavedFailed? {
        return Failed(check.error), Nothing;
      }
      if check.Consistent? {
        result, effect := Advance(heads, saved);
        return;
      }
      var error, recovery := RecoverReorg(saved.observed, saved.safe, saved.finalized, check.tip);
      effect := recovery;
      result := if error.Some? then Failed(error.value) else Done(true);
    }

    /** One step. Whatever the provider answers and wherever a transaction fails, the
        ledger stays valid and changes by one valid effect; against one chain, a completed
        step, and a failed one that has committed nevertheless, has done exactly what the
        stored chain calls for. */
    method Step() returns (result: StepResult, ghost effect: Effect)
      requires Valid()
      modifies store
      ensures Valid()
      ensures ValidEffect(settings, old(store.db), effect)
      ensures store.db == After(settings, old(store.db), effect)
      ensures result.Done? ==> result.advanced == (effect.Recover? || (effect.Ingest? && effect.chunk != []))
      ensures result.Failed? ==> !NeverMet(result.error)
      ensures result == Failed(NoObservedTip) ==>
                old(store.db).observed.None? && source.view.None? && settings.chunkSize >= 2
      ensures source.view.Some? && effect.Ingest? ==>
                CompleteEvents(effect.chunk, KnownEmitters(discovery.factory, old(store.db)), effect.events)
      ensures source.view.Some? && (result.Done? || Commits(effect)) ==>
                Settled(settings, source.view.value, old(store.db), effect)
      ensures source.view.Some? && result.Failed?
              && (old(store.db).observed.None?
                  || (old(store.db).observed.value.number < |source.view.value.chain|
                      && exists n :: n in old(store.db).rows
                           && settings.startBlock <= n <= old(store.db).observed.value.number
                           && old(store.db).observed.value.number - n < settings.searchDepth
                           && (old(store.db).safe.Some? ==> old(store.db).safe.value.number <= n)
                           && old(store.db).rows[n].hash == Keccak(source.view.value.chain[n]))) ==>
                Outage(result.error) || Stopped(source.view.value.chain, old(store.db), result.error)
      ensures source.view.Some? && old(store.db).observed.Some?
              && (|source.view.value.chain| <= old(store.db).observed.value.number
                  || forall n :: n in old(store.db).rows
                       && settings.startBlock <= n <= old(store.db).observed.value.number
                       && old(store.db).observed.value.number - n < settings.searchDepth
                       && (old(store.db).safe.Some? ==> old(store.db).safe.value.number <= n)
                       ==> old(store.db).rows[n].hash != Keccak(source.view.value.chain[n])) ==>
                result.Failed? && effect.Nothing?
      ensures effect.Ingest? ==>
                MarksMoved(settings, old(store.db), store.db, effect.safeHead, effect.finalizedHead)
    {
      hide Continuable, Stopped, Outage, Settled, CompleteEvents, Identities, ForkRecord, NeverMet, MarksMoved,
           InsertEvents, UpsertRows, StatusesMatch, EventsHoused;
      ghost var start := store.db;
      if source.view.Some? {
        ContinuableSpelledOut(settings, start, source.view.value.chain);
      }
      var read := ReadLedger();
      if read.Err? {
        return Failed(read.error), Nothing;
      }
      var heads := ReadCheckedHeads();
      if heads.Err? {
        return Failed(heads.error), Nothing;
      }
      result, effect := FollowChain(heads.value, read.value);
      EffectKeepsInvariant(settings, start, effect);
      if effect.Ingest? {
        IngestMovesMarks(settings, start, effect);
      }
    }

    /** Steps until one fails or the context is cancelled, here after this many steps. The
        whole run, whatever the provider answers, is a run of valid effects; against one
        chain every commit is the one called for, and all steps are completed but the last
        one if that fails. */
    method Run(cancelAfter: nat) returns (error: Option<StepError>, ghost effects: seq<Effect>)
      requires Valid()
      modifies store
      ensures Valid()
      ensures ValidRun(settings, old(store.db), effects)
      ensures source.view.Some? ==> FaithfulRun(settings, discovery.factory, old(store.db), effects)
      ensures store.db == Replay(settings, old(store.db), effects)
      ensures error.None? ==> |effects| == cancelAfter
      ensures error.Some? ==> effects != [] && !NeverMet(error.value)
      ensures source.view.Some? ==> OneChainRun(settings, source.view.value, old(store.db), effects)
      ensures source.view.Some? ==>
                SettledRun(settings, source.view.value, old(store.db),
                           if error.None? then effects else effects[..|effects| - 1])
    {
      effects := [];
      for taken := 0 to cancelAfter
        invariant Valid() && |effects| == taken
        invariant ValidRun(settings, old(store.db), effects)
        invariant source.view.Some? ==> FaithfulRun(settings, discovery.factory, old(store.db), effects)
        invariant store.db == Replay(settings, old(store.db), effects)
        invariant source.view.Some? ==> OneChainRun(settings, source.view.value, old(store.db), effects)
        invariant source.view.Some? ==> SettledRun(settings, source.view.value, old(store.db), effects)
      {
        var result, effect := Step();
        assert (effects + [effect])[..|effects|] == effects;
        effects := effects + [effect];
        if result.Failed? {
          return Some(result.error), effects;
        }
      }
      return None, effects;
    }
  }
}
