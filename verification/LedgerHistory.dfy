/** History independence: the events of the ledger depend only on the stored chain, not on
    the chunks, batches and recoveries that built it. */
module LedgerHistory {
  import opened Chain
  import opened Discovery
  import opened Ledger
  import opened Indexer
  import opened LedgerRuns

  // ---- discovery composes over adjacent segments ------------------------------------------

  lemma SegmentLogsSplit(a: seq<Header>, b: seq<Header>, l: Log)
    requires Linked(a) && Linked(b) && Linked(a + b)
    ensures l in SegmentLogs(a + b) <==> l in SegmentLogs(a) || l in SegmentLogs(b)
    ensures l in SegmentLogs(a) ==> l.number < (a + b)[0].number + |a|
    ensures l in SegmentLogs(b) ==> (a + b)[0].number + |a| <= l.number
  {
    if l in SegmentLogs(a) {
      var i, e := LogHome(a, l);
      assert (a + b)[i] == a[i] && (a + b)[0] == a[0];
    }
    if l in SegmentLogs(b) {
      var i, e := LogHome(b, l);
      assert (a + b)[|a| + i] == b[i];
    }
    if l in SegmentLogs(a + b) {
      var i, e := LogHome(a + b, l);
      if i < |a| {
        assert a[i] == (a + b)[i];
      } else {
        assert b[i - |a|] == (a + b)[i];
      }
    }
  }

  /** What a single pass wants of the first part does not depend on the second. */
  lemma WantedInFirst(a: seq<Header>, b: seq<Header>, em: Emitters, l: Log)
    requires Linked(a) && Linked(b) && Linked(a + b)
    ensures WantedLog(a, em, l) <==> WantedLog(a + b, em, l) && l in SegmentLogs(a)
  {
    SegmentLogsSplit(a, b, l);
    if WantedByLaunch(a, em.factory, l) {
      var launch :| launch in SegmentLogs(a) && IsLaunch(em.factory, launch)
                    && launch.number <= l.number && Wants(LaunchedBy(launch), l.entry);
      SegmentLogsSplit(a, b, launch);
    }
    if l in SegmentLogs(a) && WantedByLaunch(a + b, em.factory, l) {
      var launch :| launch in SegmentLogs(a + b) && IsLaunch(em.factory, launch)
                    && launch.number <= l.number && Wants(LaunchedBy(launch), l.entry);
      SegmentLogsSplit(a, b, launch);
    }
  }

  lemma WantsLaunched(a: seq<Header>, before: Emitters, after: Emitters, entry: Entry)
    requires Linked(a) && EmittersWithLaunches(a, before, after)
    ensures Wants(after, entry) <==>
              Wants(before, entry)
              || exists launch :: launch in SegmentLogs(a) && IsLaunch(before.factory, launch)
                                  && Wants(LaunchedBy(launch), entry)
  {
    if HasEntity(entry) {
      var kind, address := KindOf(EntityOf(entry)), entry.address;
      assert address in AddressesOf(after, kind) <==>
        address in AddressesOf(before, kind) || LaunchedIn(a, before.factory, kind, address);
      if LaunchedIn(a, before.factory, kind, address) {
        var launch :| launch in SegmentLogs(a) && IsLaunch(before.factory, launch)
                      && address in AddressesOf(LaunchedBy(launch), kind);
        assert Wants(LaunchedBy(launch), entry);
      }
    }
  }

  /** In the second part, a pass over both wants what a pass over it alone wants that
      starts with the emitters of the first part. */
  lemma WantedInSecond(a: seq<Header>, b: seq<Header>, before: Emitters, after: Emitters, l: Log)
    requires Linked(a) && Linked(b) && Linked(a + b)
    requires EmittersWithLaunches(a, before, after) && after.factory == before.factory
    ensures WantedLog(b, after, l) <==> WantedLog(a + b, before, l) && l in SegmentLogs(b)
  {
    SegmentLogsSplit(a, b, l);
    WantsLaunched(a, before, after, l.entry);
    if l in SegmentLogs(b) {
      if WantedByLaunch(b, after.factory, l) {
        var launch :| launch in SegmentLogs(b) && IsLaunch(after.factory, launch)
                      && launch.number <= l.number && Wants(LaunchedBy(launch), l.entry);
        SegmentLogsSplit(a, b, launch);
      }
      if launch :| launch in SegmentLogs(a) && IsLaunch(before.factory, launch) && Wants(LaunchedBy(launch), l.entry) {
        SegmentLogsSplit(a, b, launch);
        assert WantedByLaunch(a + b, before.factory, l);
      }
      if WantedByLaunch(a + b, before.factory, l) {
        var launch :| launch in SegmentLogs(a + b) && IsLaunch(before.factory, launch)
                      && launch.number <= l.number && Wants(LaunchedBy(launch), l.entry);
        SegmentLogsSplit(a, b, launch);
      }
    }
  }

  /** Discovery composes: one pass over two adjacent segments wants what two passes want,
      the second starting with the emitters that the first ended with. */
  lemma DiscoveryComposes(a: seq<Header>, b: seq<Header>, before: Emitters, after: Emitters, l: Log)
    requires Linked(a) && Linked(b) && Linked(a + b)
    requires EmittersWithLaunches(a, before, after) && after.factory == before.factory
    ensures WantedLog(a + b, before, l) <==> WantedLog(a, before, l) || WantedLog(b, after, l)
  {
    SegmentLogsSplit(a, b, l);
    WantedInFirst(a, b, before, l);
    WantedInSecond(a, b, before, after, l);
  }

  // ---- the stored chain and the events it calls for ------------------------------------------

  /** The headers of the stored rows, from the start block up. */
  ghost function StoredHeaders(s: Settings, db: Database): seq<Header>
    requires RowsLinked(s, db)
  {
    HeadersOf(db.rows, s.startBlock, NextBlock(s, db) - 1)
  }

  ghost function HeadersOf(rows: map<int, Row>, start: int, last: int): (hs: seq<Header>)
    requires RowsSpan(rows, start, last) && start <= last + 1
    ensures |hs| == last - start + 1
    ensures forall i :: 0 <= i < |hs| ==> rows[start + i].hash == Keccak(hs[i])
    ensures Linked(hs)
  {
    var hs := seq(last - start + 1, i requires 0 <= i <= last - start => HeaderAt(rows, start, last, start + i));
    assert forall i :: 0 <= i < |hs| ==> hs[i] == HeaderAt(rows, start, last, start + i);
    assert forall i :: 0 < i < |hs| ==> LinkAt(hs, i) by {
      forall i | 0 < i < |hs| ensures LinkAt(hs, i) {
        assert RowLink(rows, start + i);
        assert hs[i] == HeaderAt(rows, start, last, start + i);
        assert hs[i - 1] == HeaderAt(rows, start, last, start + (i - 1));
      }
    }
    hs
  }

  ghost function HeaderAt(rows: map<int, Row>, start: int, last: int, n: int): (h: Header)
    requires RowsSpan(rows, start, last) && start <= n <= last
    ensures rows[n].hash == Keccak(h) && ValidHeader(h) && h.number == n && h.parent == rows[n].parent
  {
    assert RowOfHeader(n, rows[n]);
    rows[n].hash.header
  }

  /** The ledger holds the events of its stored chain: all that one pass over it with no
      known emitters wants, and no other. */
  ghost predicate FullyIndexed(s: Settings, factory: Address, db: Database)
    requires RowsLinked(s, db)
  {
    forall e :: e in db.events.Values <==> EventWanted(StoredHeaders(s, db), NoEmitters(factory), e)
  }

  lemma {:induction false} FaithfulIsValid(s: Settings, factory: Address, db: Database, effects: seq<Effect>)
    requires FaithfulRun(s, factory, db, effects)
    ensures ValidRun(s, db, effects)
  {
    if effects != [] {
      FaithfulIsValid(s, factory, db, effects[..|effects| - 1]);
    }
  }

  /** Runs compose, so a run may follow one chain for a while and another after it. */
  lemma {:induction false} RunsCompose(s: Settings, factory: Address, db: Database, one: seq<Effect>, two: seq<Effect>)
    requires FaithfulRun(s, factory, db, one) && FaithfulRun(s, factory, Replay(s, db, one), two)
    ensures Replay(s, db, one + two) == Replay(s, Replay(s, db, one), two)
    ensures FaithfulRun(s, factory, db, one + two)
  {
    if two == [] {
      assert one + two == one;
    } else {
      RunsCompose(s, factory, db, one, two[..|two| - 1]);
      assert (one + two)[..|one + two| - 1] == one + two[..|two| - 1];
    }
  }

  /** A launch log of a segment is one that no known emitters are needed to want. */
  lemma LaunchesAreWanted(hs: seq<Header>, factory: Address, l: Log)
    requires Linked(hs)
    ensures l in SegmentLogs(hs) && IsLaunch(factory, l) <==>
              && WantedLog(hs, NoEmitters(factory), l) && HasEntity(l.entry)
              && EntityOf(l.entry).TokenLaunched? && l.entry.payload.LaunchPayload?
  {
  }

  lemma WantedLogsAreHashed(hs: seq<Header>, em: Emitters, l: Log)
    requires Linked(hs) && WantedLog(hs, em, l)
    ensures HasEntity(l.entry) && l.blockHash.Keccak? && EventWanted(hs, em, EventOf(l))
  {
    var i, e := LogHome(hs, l);
    if !Wants(em, l.entry) {
      var launch :| launch in SegmentLogs(hs) && IsLaunch(em.factory, launch)
                    && launch.number <= l.number && Wants(LaunchedBy(launch), l.entry);
    }
  }

  lemma KnownWasLaunched(s: Settings, factory: Address, db: Database, kind: EmitterKind, a: Address)
    requires RowsLinked(s, db) && FullyIndexed(s, factory, db)
    requires kind != FactoryKind && a in AddressesOf(KnownEmitters(factory, db), kind)
    ensures LaunchedIn(StoredHeaders(s, db), factory, kind, a)
  {
    var hs := StoredHeaders(s, db);
    var i :| i in Identities(db) && a in {i.curve, i.token, i.pair}
             && a == (if kind.CurveKind? then i.curve else if kind.TokenKind? then i.token else i.pair);
    var e :| e in db.events.Values && e.entity.TokenLaunched? && e.payload.LaunchPayload? && i == IdentityOf(e);
    assert EventWanted(hs, NoEmitters(factory), e);
    var l :| WantedLog(hs, NoEmitters(factory), l) && HasEntity(l.entry) && l.blockHash.Keccak? && e == EventOf(l);
    LaunchesAreWanted(hs, factory, l);
  }

  lemma LaunchIsKnown(s: Settings, factory: Address, db: Database, launch: Log)
    requires RowsLinked(s, db) && FullyIndexed(s, factory, db)
    requires launch in SegmentLogs(StoredHeaders(s, db)) && IsLaunch(factory, launch)
    ensures launch.entry.payload.curve in KnownEmitters(factory, db).curves
    ensures launch.entry.payload.token in KnownEmitters(factory, db).tokens
    ensures launch.entry.payload.pair in KnownEmitters(factory, db).pairs
  {
    var hs := StoredHeaders(s, db);
    LaunchesAreWanted(hs, factory, launch);
    WantedLogsAreHashed(hs, NoEmitters(factory), launch);
    var e := EventOf(launch);
    assert e in db.events.Values && e.entity.TokenLaunched? && e.payload.LaunchPayload?;
    assert IdentityOf(e) in Identities(db);
  }

  /** The identities of a fully indexed ledger name the contracts launched on its chain. */
  lemma KnownAreLaunched(s: Settings, factory: Address, db: Database)
    requires RowsLinked(s, db) && FullyIndexed(s, factory, db)
    ensures EmittersWithLaunches(StoredHeaders(s, db), NoEmitters(factory), KnownEmitters(factory, db))
  {
    forall kind, a
      ensures a in AddressesOf(KnownEmitters(factory, db), kind) <==>
                a in AddressesOf(NoEmitters(factory), kind) || LaunchedIn(StoredHeaders(s, db), factory, kind, a)
    {
      KnownIsLaunched(s, factory, db, kind, a);
    }
  }

  lemma KnownIsLaunched(s: Settings, factory: Address, db: Database, kind: EmitterKind, a: Address)
    requires RowsLinked(s, db) && FullyIndexed(s, factory, db)
    ensures a in AddressesOf(KnownEmitters(factory, db), kind) <==>
              a in AddressesOf(NoEmitters(factory), kind) || LaunchedIn(StoredHeaders(s, db), factory, kind, a)
  {
    if a in AddressesOf(KnownEmitters(factory, db), kind) && kind != FactoryKind {
      KnownWasLaunched(s, factory, db, kind, a);
    }
    if LaunchedIn(StoredHeaders(s, db), factory, kind, a) {
      var launch :| launch in SegmentLogs(StoredHeaders(s, db)) && IsLaunch(factory, launch)
                    && a in AddressesOf(LaunchedBy(launch), kind);
      LaunchIsKnown(s, factory, db, launch);
    }
  }

  // ---- every effect keeps the ledger fully indexed ---------------------------------------------

  lemma EventsCompose(a: seq<Header>, b: seq<Header>, before: Emitters, after: Emitters, e: Event)
    requires Linked(a) && Linked(b) && Linked(a + b)
    requires EmittersWithLaunches(a, before, after) && after.factory == before.factory
    ensures EventWanted(a + b, before, e) <==> EventWanted(a, before, e) || EventWanted(b, after, e)
  {
    if EventWanted(a + b, before, e) {
      var l :| WantedLog(a + b, before, l) && HasEntity(l.entry) && l.blockHash.Keccak? && e == EventOf(l);
      DiscoveryComposes(a, b, before, after, l);
    }
    if EventWanted(a, before, e) {
      var l :| WantedLog(a, before, l) && HasEntity(l.entry) && l.blockHash.Keccak? && e == EventOf(l);
      DiscoveryComposes(a, b, before, after, l);
    }
    if EventWanted(b, after, e) {
      var l :| WantedLog(b, after, l) && HasEntity(l.entry) && l.blockHash.Keccak? && e == EventOf(l);
      DiscoveryComposes(a, b, before, after, l);
    }
  }

  lemma EventsOfFirst(a: seq<Header>, b: seq<Header>, em: Emitters, e: Event)
    requires Linked(a) && Linked(b) && Linked(a + b) && a != []
    ensures EventWanted(a, em, e) <==> EventWanted(a + b, em, e) && e.number < a[0].number + |a|
  {
    if EventWanted(a, em, e) {
      var l :| WantedLog(a, em, l) && HasEntity(l.entry) && l.blockHash.Keccak? && e == EventOf(l);
      WantedInFirst(a, b, em, l);
      SegmentLogsSplit(a, b, l);
    }
    if EventWanted(a + b, em, e) && e.number < a[0].number + |a| {
      var l :| WantedLog(a + b, em, l) && HasEntity(l.entry) && l.blockHash.Keccak? && e == EventOf(l);
      SegmentLogsSplit(a, b, l);
      WantedInFirst(a, b, em, l);
    }
  }

  lemma SameBlocksHeaders(before: map<int, Row>, after: map<int, Row>, start: int, last: int)
    requires SameBlocks(before, after) && RowsSpan(before, start, last) && RowsSpan(after, start, last)
    requires start <= last + 1
    ensures HeadersOf(before, start, last) == HeadersOf(after, start, last)
  {
    var a, b := HeadersOf(before, start, last), HeadersOf(after, start, last);
    forall i | 0 <= i < |a| ensures a[i] == b[i] {
      assert before[start + i].hash == Keccak(a[i]) && after[start + i].hash == Keccak(b[i]);
    }
  }

  lemma AppendedHeaders(rows: map<int, Row>, start: int, first: int, chunk: seq<Header>)
    requires Continues(rows, start, first, chunk)
    ensures RowsSpan(UpsertRows(rows, chunk), start, first + |chunk| - 1)
    ensures HeadersOf(UpsertRows(rows, chunk), start, first + |chunk| - 1)
         == HeadersOf(rows, start, first - 1) + chunk
  {
    hide UpsertRows, Linked, RowLink;
    AppendRows(rows, start, first, chunk);
    var after := UpsertRows(rows, chunk);
    var a, b := HeadersOf(rows, start, first - 1), HeadersOf(after, start, first + |chunk| - 1);
    forall i | 0 <= i < |b| ensures b[i] == (a + chunk)[i] {
      assert after[start + i].hash == Keccak(b[i]);
      if i < |a| {
        assert rows[start + i].hash == Keccak(a[i]);
      } else {
        assert HoldsRow(after, first + (i - |a|), chunk[i - |a|]);
      }
    }
  }

  lemma IngestedTop(s: Settings, db: Database, effect: Effect)
    requires ValidSettings(s) && RowsLinked(s, db) && MarksOrdered(db) && effect.Ingest? && ValidIngest(s, db, effect)
    ensures SameBlocks(UpsertRows(db.rows, effect.chunk), AfterIngest(s, db, effect).rows)
    ensures NextBlock(s, AfterIngest(s, db, effect)) == NextBlock(s, db) + |effect.chunk|
  {
    IngestedRows(s, db, effect);
    IngestedBlocks(s, db, effect);
  }

  lemma IngestedHeaders(s: Settings, db: Database, effect: Effect)
    requires ValidSettings(s) && RowsLinked(s, db) && MarksOrdered(db) && effect.Ingest? && ValidIngest(s, db, effect)
    requires RowsLinked(s, AfterIngest(s, db, effect))
    ensures StoredHeaders(s, AfterIngest(s, db, effect)) == StoredHeaders(s, db) + effect.chunk
  {
    hide AfterIngest, ValidIngest, MarksOrdered, UpsertRows, RowsSpan, SameBlocks, Continues;
    IngestContinues(s, db, effect);
    IngestedTop(s, db, effect);
    HeadersAppend(db.rows, UpsertRows(db.rows, effect.chunk), AfterIngest(s, db, effect).rows,
                  s.startBlock, NextBlock(s, db), effect.chunk);
  }

  lemma HeadersAppend(before: map<int, Row>, rows: map<int, Row>, after: map<int, Row>,
                      start: int, first: int, chunk: seq<Header>)
    requires Continues(before, start, first, chunk) && rows == UpsertRows(before, chunk) && SameBlocks(rows, after)
    ensures RowsSpan(after, start, first + |chunk| - 1)
    ensures HeadersOf(after, start, first + |chunk| - 1) == HeadersOf(before, start, first - 1) + chunk
  {
    AppendedHeaders(before, start, first, chunk);
    SameBlocksSpan(rows, after, start, first + |chunk| - 1);
    SameBlocksHeaders(rows, after, start, first + |chunk| - 1);
  }

  lemma IngestStaysIndexed(s: Settings, factory: Address, db: Database, effect: Effect)
    requires ValidSettings(s) && LedgerInvariant(s, db) && FullyIndexed(s, factory, db)
    requires effect.Ingest? && FaithfulEffect(s, factory, db, effect)
    ensures RowsLinked(s, AfterIngest(s, db, effect)) && FullyIndexed(s, factory, AfterIngest(s, db, effect))
  {
    var after := AfterIngest(s, db, effect);
    var hs, known := StoredHeaders(s, db), KnownEmitters(factory, db);
    IngestedRowsKept(s, db, effect);
    IngestedHeaders(s, db, effect);
    KnownAreLaunched(s, factory, db);
    InsertEventsAdds(db.events, effect.events);
    forall e ensures e in after.events.Values <==> EventWanted(StoredHeaders(s, after), NoEmitters(factory), e) {
      EventsCompose(hs, effect.chunk, NoEmitters(factory), known, e);
    }
  }

  lemma RecoveredHeaders(s: Settings, db: Database, record: Reorg)
    requires ValidSettings(s) && LedgerInvariant(s, db) && ForkRecord(s, db, record)
    requires RowsLinked(s, AfterRecover(db, record))
    ensures
      var k := record.ancestorNumber - s.startBlock + 1;
      && 0 < k <= |StoredHeaders(s, db)|
      && StoredHeaders(s, AfterRecover(db, record)) == StoredHeaders(s, db)[..k]
  {
    var k := record.ancestorNumber - s.startBlock + 1;
    var before, after := StoredHeaders(s, db), StoredHeaders(s, AfterRecover(db, record));
    forall i | 0 <= i < k ensures after[i] == before[i] {
      assert AfterRecover(db, record).rows[s.startBlock + i].hash == Keccak(after[i]);
      assert db.rows[s.startBlock + i].hash == Keccak(before[i]);
    }
  }

  lemma RecoverStaysIndexed(s: Settings, factory: Address, db: Database, record: Reorg)
    requires ValidSettings(s) && LedgerInvariant(s, db) && FullyIndexed(s, factory, db) && ForkRecord(s, db, record)
    ensures RowsLinked(s, AfterRecover(db, record)) && FullyIndexed(s, factory, AfterRecover(db, record))
  {
    var after := AfterRecover(db, record);
    RecoverKeepsInvariant(s, db, record);
    RecoveredHeaders(s, db, record);
    var hs := StoredHeaders(s, db);
    var k := record.ancestorNumber - s.startBlock + 1;
    LinkedSlice(hs, 0, k);
    LinkedSlice(hs, k, |hs|);
    assert hs == hs[..k] + hs[k..|hs|] && hs[0..k] == hs[..k];
    assert db.rows[s.startBlock + 0].hash == Keccak(hs[0]) && RowOfHeader(s.startBlock, db.rows[s.startBlock]);
    forall e ensures e in after.events.Values <==> EventWanted(hs[..k], NoEmitters(factory), e) {
      EventsOfFirst(hs[..k], hs[k..|hs|], NoEmitters(factory), e);
      EventsKept(db.events, record.ancestorNumber, e);
    }
  }

  lemma EventsKept(events: map<EventKey, Event>, n: int, e: Event)
    ensures e in EventsUpTo(events, n).Values <==> e in events.Values && e.number <= n
  {
    if e in events.Values && e.number <= n {
      var k :| k in events && events[k] == e;
      assert k in EventsUpTo(events, n) && EventsUpTo(events, n)[k] == e;
    }
  }

  /** After any run of chunks and recoveries the ledger holds exactly the events that one
      pass over its stored chain, with no known emitters, wants. */
  lemma {:induction false} RunIsFullyIndexed(s: Settings, factory: Address, effects: seq<Effect>)
    requires ValidSettings(s) && FaithfulRun(s, factory, EMPTY, effects)
    ensures LedgerInvariant(s, Replay(s, EMPTY, effects))
    ensures FullyIndexed(s, factory, Replay(s, EMPTY, effects))
  {
    if effects == [] {
      EmptyInvariant(s);
    } else {
      var front, effect := effects[..|effects| - 1], effects[|effects| - 1];
      var db := Replay(s, EMPTY, front);
      RunIsFullyIndexed(s, factory, front);
      EffectKeepsInvariant(s, db, effect);
      match effect {
        case Ingest(_, _, _, _) => IngestStaysIndexed(s, factory, db, effect);
        case Recover(record) => RecoverStaysIndexed(s, factory, db, record);
        case _ => SameRowsSameHeaders(s, factory, db, After(s, db, effect));
      }
    }
  }

  lemma SameRowsSameHeaders(s: Settings, factory: Address, a: Database, b: Database)
    requires RowsLinked(s, a) && RowsLinked(s, b)
    requires a.rows == b.rows && a.events == b.events && a.observed == b.observed
    ensures FullyIndexed(s, factory, a) <==> FullyIndexed(s, factory, b)
  {
  }

  // ---- corollaries ----------------------------------------------------------------------------

  /** The observed hash determines the stored chain. */
  lemma {:induction false} TopDeterminesRows(a: map<int, Row>, b: map<int, Row>, start: int, last: int, n: int)
    requires RowsSpan(a, start, last) && RowsSpan(b, start, last) && start <= n <= last
    requires a[last].hash == b[last].hash
    ensures SameIdentity(a[n], b[n])
    decreases last - n
  {
    assert RowOfHeader(n, a[n]) && RowOfHeader(n, b[n]);
    if n < last {
      TopDeterminesRows(a, b, start, last, n + 1);
      assert RowLink(a, n + 1) && RowLink(b, n + 1);
    }
  }

  lemma SameTopSameHeaders(s: Settings, t: Settings, a: Database, b: Database)
    requires LedgerInvariant(s, a) && LedgerInvariant(t, b) && s.startBlock == t.startBlock
    requires a.observed.Some? && b.observed.Some? && a.observed.value.hash == b.observed.value.hash
    ensures a.observed.value.number == b.observed.value.number
    ensures a.rows.Keys == b.rows.Keys && forall n :: n in a.rows ==> SameIdentity(a.rows[n], b.rows[n])
    ensures StoredHeaders(s, a) == StoredHeaders(t, b)
  {
    var last := a.observed.value.number;
    assert RowOfHeader(last, a.rows[last]) && RowOfHeader(b.observed.value.number, b.rows[b.observed.value.number]);
    forall n | n in a.rows ensures SameIdentity(a.rows[n], b.rows[n]) {
      TopDeterminesRows(a.rows, b.rows, s.startBlock, last, n);
    }
    assert forall n :: n in a.rows.Keys <==> n in b.rows.Keys;
    var ha, hb := StoredHeaders(s, a), StoredHeaders(t, b);
    forall i | 0 <= i < |ha| ensures ha[i] == hb[i] {
      assert a.rows[s.startBlock + i].hash == Keccak(ha[i]) && b.rows[s.startBlock + i].hash == Keccak(hb[i]);
    }
  }

  /** Two runs that end at the same observed block hold the same blocks and the same
      events, whatever their chunk sizes, search depths, heads, failures and earlier
      forks were. */
  lemma HistoryIndependence(s: Settings, t: Settings, factory: Address, one: seq<Effect>, two: seq<Effect>)
    requires ValidSettings(s) && ValidSettings(t) && s.startBlock == t.startBlock
    requires FaithfulRun(s, factory, EMPTY, one) && FaithfulRun(t, factory, EMPTY, two)
    requires
      var a, b := Replay(s, EMPTY, one), Replay(t, EMPTY, two);
      a.observed.Some? && b.observed.Some? && a.observed.value.hash == b.observed.value.hash
    ensures
      var a, b := Replay(s, EMPTY, one), Replay(t, EMPTY, two);
      && a.rows.Keys == b.rows.Keys
      && (forall n :: n in a.rows ==> SameIdentity(a.rows[n], b.rows[n]))
      && a.events == b.events
  {
    var a, b := Replay(s, EMPTY, one), Replay(t, EMPTY, two);
    RunIsFullyIndexed(s, factory, one);
    RunIsFullyIndexed(t, factory, two);
    SameTopSameHeaders(s, t, a, b);
    forall e ensures e in a.events.Values <==> e in b.events.Values {
      assert EventWanted(StoredHeaders(s, a), NoEmitters(factory), e)
        <==> EventWanted(StoredHeaders(t, b), NoEmitters(factory), e);
    }
    SameValuesSameEvents(s, t, a, b);
  }

  lemma SameValuesSameEvents(s: Settings, t: Settings, a: Database, b: Database)
    requires EventsHoused(a) && EventsHoused(b)
    requires forall e :: e in a.events.Values <==> e in b.events.Values
    ensures a.events == b.events
  {
    forall k | k in a.events ensures k in b.events && b.events[k] == a.events[k] {
      assert a.events[k] in b.events.Values;
      var j :| j in b.events && b.events[j] == a.events[k];
    }
    forall k | k in b.events ensures k in a.events {
      assert b.events[k] in a.events.Values;
      var j :| j in a.events && a.events[j] == b.events[k];
    }
  }

  /** On a chain that holds the observed block, the stored headers are its segment, so the
      ledger's events are those of the logs that a single Discover over the start block up
      to the observed one, with no known emitters, returns. */
  lemma EventsEqualOneDiscovery(s: Settings, factory: Address, effects: seq<Effect>, chain: seq<Header>, logs: seq<Log>)
    requires ValidSettings(s) && FaithfulRun(s, factory, EMPTY, effects) && ValidChain(chain)
    requires
      var db := Replay(s, EMPTY, effects);
      && db.observed.Some? && AgreesAt(db.observed, chain) && s.startBlock <= db.observed.value.number
      && Linked(chain[s.startBlock..db.observed.value.number + 1])
      && forall l :: l in logs <==>
           WantedLog(chain[s.startBlock..db.observed.value.number + 1], NoEmitters(factory), l)
    ensures
      var db := Replay(s, EMPTY, effects);
      && (forall l :: l in logs ==> HasEntity(l.entry) && l.blockHash.Keccak?)
      && (forall e :: e in db.events.Values <==> exists l :: l in logs && IsEventOf(l, e))
  {
    hide FaithfulRun, Replay, WantedLog, StoredHeaders, EventWanted, IsEventOf, AgreesAt, ValidChain, Linked;
    var db := Replay(s, EMPTY, effects);
    RunIsFullyIndexed(s, factory, effects);
    StoredIsSegment(s, db, chain);
    EventsOfWantedLogs(StoredHeaders(s, db), NoEmitters(factory), logs);
    forall e ensures e in db.events.Values <==> exists l :: l in logs && IsEventOf(l, e) {
      assert EventWanted(StoredHeaders(s, db), NoEmitters(factory), e) <==> exists l :: l in logs && IsEventOf(l, e);
    }
  }

  lemma StoredIsSegment(s: Settings, db: Database, chain: seq<Header>)
    requires ValidSettings(s) && RowsLinked(s, db) && MarksOrdered(db) && db.observed.Some?
    requires ValidChain(chain) && AgreesAt(db.observed, chain)
    ensures StoredHeaders(s, db) == chain[s.startBlock..db.observed.value.number + 1]
  {
    var hs, segment := StoredHeaders(s, db), chain[s.startBlock..db.observed.value.number + 1];
    forall i | 0 <= i < |hs| ensures hs[i] == segment[i] {
      SpanOnChain(db.rows, s.startBlock, db.observed.value.number, chain, s.startBlock + i);
      assert db.rows[s.startBlock + i].hash == Keccak(hs[i]);
    }
  }

  lemma EventsOfWantedLogs(hs: seq<Header>, em: Emitters, logs: seq<Log>)
    requires Linked(hs) && forall l :: l in logs <==> WantedLog(hs, em, l)
    ensures forall l :: l in logs ==> HasEntity(l.entry) && l.blockHash.Keccak?
    ensures forall e :: EventWanted(hs, em, e) <==> exists l :: l in logs && IsEventOf(l, e)
  {
    forall l | l in logs ensures HasEntity(l.entry) && l.blockHash.Keccak? {
      WantedLogsAreHashed(hs, em, l);
    }
    forall e ensures EventWanted(hs, em, e) <==> exists l :: l in logs && IsEventOf(l, e) {
      if EventWanted(hs, em, e) {
        var l :| WantedLog(hs, em, l) && HasEntity(l.entry) && l.blockHash.Keccak? && e == EventOf(l);
        assert l in logs && IsEventOf(l, e);
      }
    }
  }

  /** The event that a log of a hashed block becomes. */
  predicate IsEventOf(l: Log, e: Event) {
    && l.entry.topic.Some? && l.entry.topic.value.EventTopic? && l.blockHash.Keccak?
    && e == Event(l.entry.topic.value.entity, l.number, l.blockHash, l.blockHash.header.time, l.entry.txIndex,
                  l.entry.txHash, l.entry.index, l.entry.address, l.entry.payload)
  }
}
