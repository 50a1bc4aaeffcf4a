/** Log discovery over a block range (backend/internal/chain/discovery.go). */
module Discovery {
  import opened Wrappers
  import opened Chain

  datatype DiscoveryError =
    | InvalidRange
    | FactoryMismatch
    | SourceUnavailable
    | CapacityAt(block: Uint64)
    | BadEmitter
    | NoTopic
    | BadTopic
    | UndecodableLog(reason: DecodeError)
    | PairUnverified
    | ConflictingLogs

  datatype DiscoveryResult = DiscoveryResult(logs: seq<Log>, emitters: Emitters)

  // ---- the filter that Discover refines ------------------------------------------------

  /** The log of a header segment that a single pass would keep: what the known emitters
      ask for, and what a contract launched within the segment asks for from its launch
      block on. */
  ghost predicate WantedLog(hs: seq<Header>, em: Emitters, log: Log)
    requires Linked(hs)
  {
    && log in SegmentLogs(hs)
    && (Wants(em, log.entry) || WantedByLaunch(hs, em.factory, log))
  }

  ghost predicate WantedByLaunch(hs: seq<Header>, factory: Address, log: Log)
    requires Linked(hs)
  {
    exists launch :: launch in SegmentLogs(hs) && IsLaunch(factory, launch)
                     && launch.number <= log.number && Wants(LaunchedBy(launch), log.entry)
  }

  /** A launch log of the segment, at or before the block of another log. */
  ghost predicate LaunchUpTo(hs: seq<Header>, factory: Address, launch: Log, number: int)
    requires Linked(hs)
  {
    && launch in SegmentLogs(hs) && launch.number <= number
    && launch.entry.address == factory && launch.entry.topic == Some(EventTopic(TokenLaunched))
    && launch.entry.payload.LaunchPayload?
  }

  /** The wanted logs, event by event: those of the factory by its address, and those of a
      curve, token or pair by an address that is known or that a launch has named by then. */
  lemma WantedSpelledOut(hs: seq<Header>, em: Emitters, l: Log)
    requires Linked(hs)
    ensures WantedLog(hs, em, l) <==>
              && (exists i, e :: 0 <= i < |hs| && e in hs[i].entries && l == Log(hs[i].number, Keccak(hs[i]), e, false))
              && l.entry.topic.Some? && l.entry.topic.value.EventTopic?
              && (match l.entry.topic.value.entity
                  case TokenLaunched | LaunchFeesClaimed | LaunchPauseSet | TradingPauseSet
                     | EngineConfigured | FutureDefaultsConfigured | FutureTreasuryConfigured =>
                    l.entry.address == em.factory
                  case Trade | Graduated | CreatorFeesClaimed | ProtocolFeesClaimed | RefundCredited | RefundClaimed =>
                    || l.entry.address in em.curves
                    || exists launch :: LaunchUpTo(hs, em.factory, launch, l.number)
                                        && launch.entry.payload.curve == l.entry.address
                  case Transfer =>
                    || l.entry.address in em.tokens
                    || exists launch :: LaunchUpTo(hs, em.factory, launch, l.number)
                                        && launch.entry.payload.token == l.entry.address
                  case Mint | Burn | Swap | Sync =>
                    || l.entry.address in em.pairs
                    || exists launch :: LaunchUpTo(hs, em.factory, launch, l.number)
                                        && launch.entry.payload.pair == l.entry.address)
  {
    if l in SegmentLogs(hs) {
      var i, e := LogHome(hs, l);
    }
    if WantedByLaunch(hs, em.factory, l) {
      var launch :| launch in SegmentLogs(hs) && IsLaunch(em.factory, launch)
                    && launch.number <= l.number && Wants(LaunchedBy(launch), l.entry);
      assert LaunchUpTo(hs, em.factory, launch, l.number);
    }
    forall launch | LaunchUpTo(hs, em.factory, launch, l.number) && HasEntity(l.entry)
                    && Wants(LaunchedBy(launch), l.entry)
      ensures WantedByLaunch(hs, em.factory, l)
    {
    }
  }

  // ---- coordinates ---------------------------------------------------------------------

  datatype Coordinates = Coordinates(block: Uint64, tx: Uint64, index: Uint64)

  function CoordinatesOf(log: Log): Coordinates {
    Coordinates(log.number, log.entry.txIndex, log.entry.index)
  }

  predicate Before(a: Log, b: Log) {
    if a.number != b.number then a.number < b.number
    else if a.entry.txIndex != b.entry.txIndex then a.entry.txIndex < b.entry.txIndex
    else a.entry.index < b.entry.index
  }

  /** In the order of blocks, then of transactions, then of logs, no two at one place. */
  predicate StrictlyOrdered(logs: seq<Log>) {
    forall i, j :: 0 <= i < j < |logs| ==>
      && logs[i].number <= logs[j].number
      && (logs[i].number == logs[j].number ==> logs[i].entry.txIndex <= logs[j].entry.txIndex)
      && (logs[i].number == logs[j].number && logs[i].entry.txIndex == logs[j].entry.txIndex ==>
            logs[i].entry.index < logs[j].entry.index)
  }

  /** Everything but the removed flag. */
  predicate SameLog(a: Log, b: Log) {
    a.number == b.number && a.blockHash == b.blockHash && a.entry == b.entry
  }

  /** Two logs at one place that differ in more than the removed flag. */
  predicate Conflict(logs: seq<Log>) {
    exists i, j :: 0 <= i < |logs| && 0 <= j < |logs| && SamePlace(logs[i], logs[j])
                   && (logs[i].blockHash != logs[j].blockHash || logs[i].entry != logs[j].entry)
  }

  predicate EqualUpToRemoval(a: Log, b: Log) {
    a == b.(removed := a.removed)
  }

  predicate SamePlace(a: Log, b: Log) {
    a.number == b.number && a.entry.txIndex == b.entry.txIndex && a.entry.index == b.entry.index
  }

  /** One insertion of the library sort. */
  function Insert(logs: seq<Log>, log: Log): seq<Log> {
    if logs == [] then [log]
    else if Before(log, logs[0]) then [log] + logs
    else [logs[0]] + Insert(logs[1..], log)
  }

  lemma {:induction false} InsertKeepsOrder(logs: seq<Log>, log: Log)
    requires StrictlyOrdered(logs)
    requires forall l :: l in logs ==> CoordinatesOf(l) != CoordinatesOf(log)
    ensures StrictlyOrdered(Insert(logs, log))
    ensures forall l :: l in Insert(logs, log) <==> l in logs || l == log
  {
    if logs != [] && !Before(log, logs[0]) {
      InsertKeepsOrder(logs[1..], log);
      var rest := Insert(logs[1..], log);
      forall i, j | 0 <= i < j < |Insert(logs, log)|
        ensures Before(Insert(logs, log)[i], Insert(logs, log)[j])
      {
        assert rest[j - 1] in rest;
        if i > 0 {
          assert Before(rest[i - 1], rest[j - 1]);
        } else if rest[j - 1] in logs[1..] {
          var k :| 0 <= k < |logs[1..]| && logs[1..][k] == rest[j - 1];
          assert Before(logs[0], logs[k + 1]);
        } else {
          assert logs[0] in logs && rest[j - 1] == log;
        }
      }
    }
  }

  /** deduplicateAndSort: each coordinate once, in order, or an error exactly when two
      different logs share a coordinate. */
  method DeduplicateAndSort(logs: seq<Log>) returns (r: Result<seq<Log>, DiscoveryError>)
    ensures r.Err? <==> Conflict(logs)
    ensures r.Err? ==> r.error == ConflictingLogs
    ensures r.Ok? ==> StrictlyOrdered(r.value)
    ensures r.Ok? ==> forall l :: l in r.value ==> l in logs
    ensures r.Ok? ==> forall l :: l in logs ==> exists k :: k in r.value && EqualUpToRemoval(k, l)
  {
    var unique: map<Coordinates, Log> := map[];
    for i := 0 to |logs|
      invariant forall c :: c in unique ==> unique[c] in logs[..i] && CoordinatesOf(unique[c]) == c
      invariant forall j :: 0 <= j < i ==>
        CoordinatesOf(logs[j]) in unique && SameLog(unique[CoordinatesOf(logs[j])], logs[j])
    {
      var key := CoordinatesOf(logs[i]);
      assert logs[..i + 1] == logs[..i] + [logs[i]];
      if key in unique {
        if !SameLog(unique[key], logs[i]) {
          var j :| 0 <= j < i && logs[j] == unique[key];
          assert SamePlace(logs[j], logs[i]);
          return Err(ConflictingLogs);
        }
      } else {
        unique := unique[key := logs[i]];
      }
    }
    var result: seq<Log> := [];
    var rest := unique.Keys;
    while rest != {}
      invariant rest <= unique.Keys
      invariant StrictlyOrdered(result)
      invariant forall l :: l in result <==> exists c :: c in unique.Keys - rest && unique[c] == l
      decreases rest
    {
      var c :| c in rest;
      forall l | l in result ensures CoordinatesOf(l) != CoordinatesOf(unique[c]) {
        var d :| d in unique.Keys - rest && unique[d] == l;
      }
      InsertKeepsOrder(result, unique[c]);
      ghost var before, remaining := result, rest;
      result := Insert(result, unique[c]);
      rest := rest - {c};
      forall l ensures l in result <==> exists d :: d in unique.Keys - rest && unique[d] == l {
        if l in result {
          if l == unique[c] {
            assert c in unique.Keys - rest;
          } else {
            var d :| d in unique.Keys - remaining && unique[d] == l;
            assert d in unique.Keys - rest;
          }
        }
        if d :| d in unique.Keys - rest && unique[d] == l {
          assert d == c || d in unique.Keys - remaining;
        }
      }
    }
    assert !Conflict(logs);
    forall l | l in result ensures l in logs {
      var c :| c in unique.Keys - rest && unique[c] == l;
      assert unique[c] in logs[..|logs|];
    }
    forall l | l in logs
      ensures exists k :: k in result && EqualUpToRemoval(k, l)
    {
      var j :| 0 <= j < |logs| && logs[j] == l;
      var c := CoordinatesOf(l);
      assert c in unique.Keys - rest && unique[c] in result && SameLog(unique[c], l);
    }
    return Ok(result);
  }

  // ---- bisection -------------------------------------------------------------------------

  const UINT64_MODULUS: int := 0x1_0000_0000_0000_0000

  /** The unsigned difference to - from. */
  function Span(from: Uint64, to: Uint64): Uint64 {
    (to - from) % UINT64_MODULUS
  }

  function Middle(from: Uint64, to: Uint64): Uint64 {
    (from + Span(from, to) / 2) % UINT64_MODULUS
  }

  function Next(block: Uint64): Uint64 {
    (block + 1) % UINT64_MODULUS
  }

  /** Both halves are smaller, even on an inverted range; on a proper range they are
      the two halves of it. */
  lemma Bisection(from: Uint64, to: Uint64)
    requires from != to
    ensures Span(from, Middle(from, to)) < Span(from, to)
    ensures Span(Next(Middle(from, to)), to) < Span(from, to)
    ensures from < to ==> from <= Middle(from, to) < to && Next(Middle(from, to)) == Middle(from, to) + 1
  {
    var d := if from < to then to - from else to - from + UINT64_MODULUS;
    WrapsTo(to - from, d);
    var middle := if from + d / 2 < UINT64_MODULUS then from + d / 2 else from + d / 2 - UINT64_MODULUS;
    WrapsTo(from + d / 2, middle);
    WrapsTo(middle - from, d / 2);
    var next := if middle + 1 < UINT64_MODULUS then middle + 1 else 0;
    WrapsTo(middle + 1, next);
    WrapsTo(to - next, d - d / 2 - 1);
  }

  lemma WrapsTo(x: int, y: int)
    requires 0 <= y < UINT64_MODULUS
    requires x == y || x == y + UINT64_MODULUS || x == y - UINT64_MODULUS
    ensures x % UINT64_MODULUS == y
  {
  }

  function EntitiesOf(kind: EmitterKind): set<Entity> {
    set e: Entity | KindOf(e) == kind
  }

  lemma LinkedSlice(hs: seq<Header>, from: int, to: int)
    requires Linked(hs) && 0 <= from <= to <= |hs|
    ensures Linked(hs[from..to])
  {
    var slice := hs[from..to];
    forall i | 0 <= i < |slice| ensures ValidHeader(slice[i]) && slice[i].number == slice[0].number + i {
      assert slice[i] == hs[from + i] && slice[0] == hs[from];
    }
    forall i | 0 < i < |slice| ensures LinkAt(slice, i) {
      assert LinkAt(hs, from + i);
      assert slice[i] == hs[from + i] && slice[i - 1] == hs[from + i - 1];
    }
  }

  /** The slice of a chain holds exactly its logs in that block range. */
  lemma SegmentOfChain(chain: seq<Header>, from: int, to: int)
    requires ValidChain(chain) && 0 <= from <= to < |chain|
    ensures Linked(chain[from..to + 1])
    ensures forall l :: l in SegmentLogs(chain[from..to + 1]) <==>
              l in SegmentLogs(chain) && from <= l.number <= to
  {
    var hs := chain[from..to + 1];
    LinkedSlice(chain, from, to + 1);
    forall l | l in SegmentLogs(chain) && from <= l.number <= to ensures l in SegmentLogs(hs) {
      var i, e := LogHome(chain, l);
      assert hs[i - from] == chain[i];
    }
    forall l | l in SegmentLogs(hs) ensures l in SegmentLogs(chain) && from <= l.number <= to {
      var i, e := LogHome(hs, l);
      assert hs[i] == chain[from + i] && hs[0] == chain[from];
    }
  }

  // ---- launches found among factory logs ---------------------------------------------------

  function Last<T>(s: seq<T>): T
    requires s != []
  {
    s[|s| - 1]
  }

  /** The contracts launched by the given factory logs, per launch block. */
  function LaunchIndex(factory: Address, logs: seq<Log>): map<Uint64, Emitters> {
    if logs == [] then map[]
    else
      var index := LaunchIndex(factory, logs[..|logs| - 1]);
      var log := Last(logs);
      if !IsLaunch(factory, log) then index
      else
        var before := if log.number in index then index[log.number] else NoEmitters(factory);
        index[log.number := AddEmitters(before, LaunchedBy(log))]
  }

  /** The known contracts and all those launched by the given logs. */
  function AllEmitters(known: Emitters, logs: seq<Log>): Emitters {
    if logs == [] then known
    else
      var before := AllEmitters(known, logs[..|logs| - 1]);
      if IsLaunch(known.factory, Last(logs)) then AddEmitters(before, LaunchedBy(Last(logs))) else before
  }

  /** Emitters of the index want this log at or after their launch block. */
  ghost predicate WantedByIndex(index: map<Uint64, Emitters>, l: Log) {
    exists b :: b in index && b <= l.number && Wants(index[b], l.entry)
  }

  ghost predicate LaunchAt(factory: Address, logs: seq<Log>, block: Uint64, entry: Entry) {
    exists launch :: launch in logs && IsLaunch(factory, launch) && launch.number == block
                     && Wants(LaunchedBy(launch), entry)
  }

  lemma AddedWants(a: Emitters, b: Emitters, entry: Entry)
    requires a.factory == b.factory
    ensures Wants(AddEmitters(a, b), entry) <==> Wants(a, entry) || Wants(b, entry)
    ensures AddEmitters(a, b).factory == a.factory
  {
  }

  lemma LaunchWants(factory: Address, log: Log, entry: Entry)
    requires IsLaunch(factory, log)
    ensures LaunchedBy(log).factory == NoEmitters(factory).factory == factory
    ensures Wants(NoEmitters(factory), entry) ==> Wants(LaunchedBy(log), entry)
  {
  }

  lemma {:induction false} LaunchIndexMeaning(factory: Address, logs: seq<Log>, block: Uint64, entry: Entry)
    ensures block in LaunchIndex(factory, logs) ==> LaunchIndex(factory, logs)[block].factory == factory
    ensures block in LaunchIndex(factory, logs) && Wants(LaunchIndex(factory, logs)[block], entry)
       <==> LaunchAt(factory, logs, block, entry)
  {
    hide Wants, AddEmitters, LaunchedBy, NoEmitters;
    if logs != [] {
      var front, log := logs[..|logs| - 1], Last(logs);
      assert logs == front + [log];
      LaunchIndexMeaning(factory, front, block, entry);
      if IsLaunch(factory, log) {
        LaunchWants(factory, log, entry);
        var index := LaunchIndex(factory, front);
        var before := if log.number in index then index[log.number] else NoEmitters(factory);
        if log.number == block {
          AddedWants(before, LaunchedBy(log), entry);
        }
      }
      if LaunchAt(factory, front, block, entry) {
        var launch :| launch in front && IsLaunch(factory, launch) && launch.number == block
                      && Wants(LaunchedBy(launch), entry);
        assert launch in logs;
      }
      if IsLaunch(factory, log) && log.number == block && Wants(LaunchedBy(log), entry) {
        assert log in logs;
      }
      if LaunchAt(factory, logs, block, entry) {
        var launch :| launch in logs && IsLaunch(factory, launch) && launch.number == block
                      && Wants(LaunchedBy(launch), entry);
        assert launch in front || launch == log;
      }
    }
  }

  lemma {:induction false} LaunchIndexBlocks(factory: Address, logs: seq<Log>, block: Uint64)
    ensures block in LaunchIndex(factory, logs) <==>
              exists launch :: launch in logs && IsLaunch(factory, launch) && launch.number == block
  {
    if logs != [] {
      var front, log := logs[..|logs| - 1], Last(logs);
      assert logs == front + [log];
      LaunchIndexBlocks(factory, front, block);
      if launch :| launch in logs && IsLaunch(factory, launch) && launch.number == block {
        assert launch in front || launch == log;
      }
      if launch :| launch in front && IsLaunch(factory, launch) && launch.number == block {
        assert launch in logs;
      }
      assert log in logs;
    }
  }

  lemma {:induction false} AllEmittersMeaning(known: Emitters, logs: seq<Log>, kind: EmitterKind, address: Address)
    ensures AllEmitters(known, logs).factory == known.factory
    ensures address in AddressesOf(AllEmitters(known, logs), kind) <==>
              address in AddressesOf(known, kind)
              || exists launch :: launch in logs && IsLaunch(known.factory, launch)
                                  && address in AddressesOf(LaunchedBy(launch), kind)
  {
    if logs != [] {
      var front, log := logs[..|logs| - 1], Last(logs);
      assert logs == front + [log];
      AllEmittersMeaning(known, front, kind, address);
      if launch :| launch in logs && IsLaunch(known.factory, launch)
                   && address in AddressesOf(LaunchedBy(launch), kind) {
        assert launch in front || launch == log;
      }
      if launch :| launch in front && IsLaunch(known.factory, launch)
                   && address in AddressesOf(LaunchedBy(launch), kind) {
        assert launch in logs;
      }
      assert log in logs;
    }
  }

  const FETCHED_KINDS: seq<EmitterKind> := [CurveKind, TokenKind, PairKind]

  /** A log that the factory query asks for. */
  predicate FactoryLog(factory: Address, l: Log) {
    l.entry.address == factory && HasEntity(l.entry) && KindOf(EntityOf(l.entry)).FactoryKind?
  }

  /** Decoding a factory log does not depend on the other emitters. */
  lemma FactoryDecode(l: Log, em: Emitters)
    requires l.entry.address == em.factory
    ensures Decode(l, em) == Decode(l, NoEmitters(em.factory))
  {
  }

  /** A factory log of the segment that fails to decode for this reason. */
  ghost predicate UndecodableIn(hs: seq<Header>, factory: Address, reason: DecodeError)
    requires Linked(hs)
  {
    exists l :: l in SegmentLogs(hs) && FactoryLog(factory, l) && Decode(l, NoEmitters(factory)) == Err(reason)
  }

  ghost predicate AllDecodable(hs: seq<Header>, factory: Address)
    requires Linked(hs)
  {
    forall l :: l in SegmentLogs(hs) && FactoryLog(factory, l) ==> Decode(l, NoEmitters(factory)).Ok?
  }

  ghost predicate LaunchIn(hs: seq<Header>, factory: Address)
    requires Linked(hs)
  {
    exists l :: l in SegmentLogs(hs) && IsLaunch(factory, l)
  }

  ghost predicate LaunchedIn(hs: seq<Header>, factory: Address, kind: EmitterKind, address: Address)
    requires Linked(hs)
  {
    exists launch :: launch in SegmentLogs(hs) && IsLaunch(factory, launch)
                     && address in AddressesOf(LaunchedBy(launch), kind)
  }

  /** `after` is `before` with the contracts launched in the segment added. */
  ghost predicate EmittersWithLaunches(hs: seq<Header>, before: Emitters, after: Emitters)
    requires Linked(hs)
  {
    forall kind, address :: address in AddressesOf(after, kind) <==>
      address in AddressesOf(before, kind) || LaunchedIn(hs, before.factory, kind, address)
  }

  ghost predicate DistinctCoordinates(hs: seq<Header>)
    requires Linked(hs)
  {
    forall a, b :: a in SegmentLogs(hs) && b in SegmentLogs(hs) && CoordinatesOf(a) == CoordinatesOf(b) ==> a == b
  }

  lemma SortedIsWanted(hs: seq<Header>, em: Emitters, logs: seq<Log>, r: Result<seq<Log>, DiscoveryError>)
    requires Linked(hs)
    requires forall l :: l in logs <==> WantedLog(hs, em, l)
    requires r.Err? ==> Conflict(logs)
    requires r.Ok? ==> forall l :: l in r.value ==> l in logs
    requires r.Ok? ==> forall l :: l in logs ==> exists k :: k in r.value && EqualUpToRemoval(k, l)
    ensures r.Err? ==> !DistinctCoordinates(hs)
    ensures r.Ok? ==> forall l :: l in r.value <==> WantedLog(hs, em, l)
  {
    if r.Err? {
      var i, j :| 0 <= i < |logs| && 0 <= j < |logs| && SamePlace(logs[i], logs[j])
                  && (logs[i].blockHash != logs[j].blockHash || logs[i].entry != logs[j].entry);
      assert logs[i] in logs && logs[j] in logs;
    } else {
      forall l | l in logs ensures l in r.value {
        var k :| k in r.value && EqualUpToRemoval(k, l);
        assert k in SegmentLogs(hs) && l in SegmentLogs(hs);
        assert k == l;
      }
    }
  }

  class Discoverer {
    const source: Provider
    const factory: Address
    const addressBatchSize: int

    ghost predicate Valid() {
      source.Valid() && addressBatchSize > 0
    }

    constructor (source: Provider, factory: Address, addressBatchSize: int)
      requires source.Valid() && addressBatchSize > 0
      ensures Valid() && this.source == source && this.factory == factory
    {
      this.source := source;
      this.factory := factory;
      this.addressBatchSize := addressBatchSize;
    }

    /** What can go wrong while fetching. */
    ghost predicate FetchFailure(e: DiscoveryError) {
      || (e.SourceUnavailable? && !source.reliable)
      || e.CapacityAt? || e.BadEmitter? || e.NoTopic? || e.BadTopic?
    }

    /** And from one chain: the transport, or a single block of the range whose query the
        provider finds too large. */
    ghost predicate ServedFailure(e: DiscoveryError, from: Uint64, to: Uint64)
      requires source.view.Some?
    {
      || (e.SourceUnavailable? && !source.reliable)
      || (e.CapacityAt? && from <= e.block <= to
          && exists addresses, entities ::
               source.view.value.tooLarge(Query(e.block, e.block, addresses, entities)))
    }

    /** Why gathering fails on one chain: a fetch, or a factory log of the segment that does
        not decode or whose pair is not the one expected. */
    ghost predicate GatherFailure(e: DiscoveryError, from: Uint64, to: Uint64, hs: seq<Header>)
      requires source.view.Some? && Linked(hs)
    {
      || ServedFailure(e, from, to)
      || (e.UndecodableLog? && UndecodableIn(hs, factory, e.reason))
      || (e.PairUnverified? && LaunchIn(hs, factory))
    }

    /** Splits the range until the provider answers; gives up only on a single block. */
    method FetchRange(from: Uint64, to: Uint64, addresses: seq<Address>, entities: set<Entity>)
      returns (r: Result<seq<Log>, DiscoveryError>)
      requires Valid()
      ensures r.Err? ==> (r.error == SourceUnavailable && !source.reliable) || r.error.CapacityAt?
      ensures r.Err? && r.error.CapacityAt? && from <= to ==> from <= r.error.block <= to
      ensures r.Err? && r.error.CapacityAt? && source.view.Some? ==>
                source.view.value.tooLarge(Query(r.error.block, r.error.block, addresses, entities))
      ensures r.Ok? && source.view.Some? && from <= to ==>
                forall l :: l in r.value <==>
                  l in SegmentLogs(source.view.value.chain) && Matches(Query(from, to, addresses, entities), l)
      decreases Span(from, to)
    {
      var reply := source.FilterLogs(Query(from, to, addresses, entities));
      if reply.Logs? {
        return Ok(reply.logs);
      }
      if !reply.Capacity? {
        return Err(SourceUnavailable);
      }
      if from == to {
        return Err(CapacityAt(from));
      }
      Bisection(from, to);
      var middle := Middle(from, to);
      var left :- FetchRange(from, middle, addresses, entities);
      var right :- FetchRange(Next(middle), to, addresses, entities);
      return Ok(left + right);
    }

    /** Batches the addresses and checks that every reply stays within the query. */
    method Fetch(from: Uint64, to: Uint64, addresses: seq<Address>, entities: set<Entity>)
      returns (r: Result<seq<Log>, DiscoveryError>)
      requires Valid()
      ensures r.Err? ==> FetchFailure(r.error)
      ensures r.Err? && source.view.Some? && from <= to ==> ServedFailure(r.error, from, to)
      ensures r.Ok? ==> forall l :: l in r.value ==>
                l.entry.address in addresses && HasEntity(l.entry) && EntityOf(l.entry) in entities
      ensures r.Ok? && source.view.Some? && from <= to ==>
                forall l :: l in r.value <==>
                  l in SegmentLogs(source.view.value.chain) && Matches(Query(from, to, addresses, entities), l)
    {
      if |addresses| == 0 {
        return Ok([]);
      }
      var result: seq<Log> := [];
      var start := 0;
      while start < |addresses|
        invariant 0 <= start <= |addresses|
        invariant forall l :: l in result ==>
          l.entry.address in addresses && HasEntity(l.entry) && EntityOf(l.entry) in entities
        invariant source.view.Some? && from <= to ==>
          forall l :: l in result <==>
            l in SegmentLogs(source.view.value.chain) && Matches(Query(from, to, addresses[..start], entities), l)
        decreases |addresses| - start
      {
        var end := if start + addressBatchSize < |addresses| then start + addressBatchSize else |addresses|;
        var batch := addresses[start..end];
        assert addresses[..end] == addresses[..start] + batch;
        var logs :- FetchRange(from, to, batch, entities);
        for i := 0 to |logs|
          invariant forall j :: 0 <= j < i ==>
            logs[j].entry.address in batch && HasEntity(logs[j].entry) && EntityOf(logs[j].entry) in entities
        {
          if logs[i].entry.address !in batch {
            assert source.view.None? || to < from by { assert logs[i] in logs; }
            return Err(BadEmitter);
          }
          if logs[i].entry.topic.None? {
            assert source.view.None? || to < from by { assert logs[i] in logs; }
            return Err(NoTopic);
          }
          if !HasEntity(logs[i].entry) || EntityOf(logs[i].entry) !in entities {
            assert source.view.None? || to < from by { assert logs[i] in logs; }
            return Err(BadTopic);
          }
        }
        result := result + logs;
        start := end;
      }
      assert addresses[..start] == addresses;
      return Ok(result);
    }

    /** The addresses of a set, in whatever order the map yields them. */
    method AddressesFor(em: Emitters, kind: EmitterKind) returns (result: seq<Address>)
      ensures forall a :: a in result <==> a in AddressesOf(em, kind)
    {
      result := [];
      var rest := AddressesOf(em, kind);
      while rest != {}
        invariant forall a :: a in result || a in rest <==> a in AddressesOf(em, kind)
        decreases rest
      {
        var a :| a in rest;
        result := result + [a];
        rest := rest - {a};
      }
    }

    /** The loop over the curve, token and pair emitters. */
    method FetchKinds(from: Uint64, to: Uint64, em: Emitters) returns (r: Result<seq<Log>, DiscoveryError>)
      requires Valid()
      ensures r.Err? ==> FetchFailure(r.error)
      ensures r.Err? && source.view.Some? && from <= to ==> ServedFailure(r.error, from, to)
      ensures r.Ok? && source.view.Some? && from <= to ==>
                forall l :: l in r.value <==>
                  && l in SegmentLogs(source.view.value.chain) && from <= l.number <= to
                  && Wants(em, l.entry) && KindOf(EntityOf(l.entry)) != FactoryKind
    {
      var result: seq<Log> := [];
      for k := 0 to 3
        invariant source.view.Some? && from <= to ==>
          forall l :: l in result <==>
            && l in SegmentLogs(source.view.value.chain) && from <= l.number <= to
            && Wants(em, l.entry) && KindOf(EntityOf(l.entry)) in FETCHED_KINDS[..k]
      {
        var kind := FETCHED_KINDS[k];
        var addresses := AddressesFor(em, kind);
        var logs :- Fetch(from, to, addresses, EntitiesOf(kind));
        assert FETCHED_KINDS[..k + 1] == FETCHED_KINDS[..k] + [kind];
        result := result + logs;
      }
      assert FETCHED_KINDS[..3] == FETCHED_KINDS;
      return Ok(result);
    }

    /** Decodes the factory logs and indexes the launches among them. The pair check
        asks the chain, so its verdict is arbitrary here. */
    method IndexLaunches(factoryLogs: seq<Log>, known: Emitters)
      returns (r: Result<(map<Uint64, Emitters>, Emitters), DiscoveryError>)
      requires known.factory == factory
      requires forall l :: l in factoryLogs ==> l.entry.address == factory
      ensures r.Err? ==> r.error.UndecodableLog? || r.error.PairUnverified?
      ensures r.Err? && r.error.UndecodableLog? ==>
                exists l :: l in factoryLogs && Decode(l, NoEmitters(factory)) == Err(r.error.reason)
      ensures r.Err? && r.error.PairUnverified? ==> exists l :: l in factoryLogs && IsLaunch(factory, l)
      ensures r.Ok? ==> forall l :: l in factoryLogs ==> Decode(l, NoEmitters(factory)).Ok?
      ensures r.Ok? ==> r.value == (LaunchIndex(factory, factoryLogs), AllEmitters(known, factoryLogs))
    {
      var emitters := known;
      var newByBlock: map<Uint64, Emitters> := map[];
      for i := 0 to |factoryLogs|
        invariant newByBlock == LaunchIndex(factory, factoryLogs[..i])
        invariant emitters == AllEmitters(known, factoryLogs[..i]) && emitters.factory == factory
        invariant forall j :: 0 <= j < i ==> Decode(factoryLogs[j], NoEmitters(factory)).Ok?
      {
        var log := factoryLogs[i];
        assert log in factoryLogs;
        assert factoryLogs[..i + 1][..i] == factoryLogs[..i] && Last(factoryLogs[..i + 1]) == log;
        var decoded := Decode(log, emitters);
        FactoryDecode(log, emitters);
        if decoded.Err? {
          return Err(UndecodableLog(decoded.error));
        }
        if decoded.value.TokenLaunched? {
          assert IsLaunch(factory, log);
          if * {
            return Err(PairUnverified);
          }
          emitters := AddEmitters(emitters, LaunchedBy(log));
          var blockSet := if log.number in newByBlock then newByBlock[log.number] else NoEmitters(factory);
          newByBlock := newByBlock[log.number := AddEmitters(blockSet, LaunchedBy(log))];
        }
      }
      assert factoryLogs[..|factoryLogs|] == factoryLogs;
      return Ok((newByBlock, emitters));
    }

    /** The refetch of newly launched contracts, block by block up to the end of the range. */
    method FetchLaunched(ghost from: Uint64, to: Uint64, newByBlock: map<Uint64, Emitters>)
      returns (r: Result<seq<Log>, DiscoveryError>)
      requires Valid()
      ensures r.Err? ==> FetchFailure(r.error)
      ensures r.Err? && source.view.Some? && (forall b :: b in newByBlock ==> from <= b <= to) ==>
                ServedFailure(r.error, from, to)
      ensures r.Ok? && source.view.Some? && (forall b :: b in newByBlock ==> from <= b <= to) ==>
                forall l :: l in r.value <==>
                  && l in SegmentLogs(source.view.value.chain) && from <= l.number <= to
                  && HasEntity(l.entry) && KindOf(EntityOf(l.entry)) != FactoryKind
                  && WantedByIndex(newByBlock, l)
    {
      var result: seq<Log> := [];
      var rest := newByBlock.Keys;
      while rest != {}
        invariant rest <= newByBlock.Keys
        invariant source.view.Some? && (forall b :: b in newByBlock ==> from <= b <= to) ==>
          forall l :: l in result <==>
            && l in SegmentLogs(source.view.value.chain) && from <= l.number <= to
            && HasEntity(l.entry) && KindOf(EntityOf(l.entry)) != FactoryKind
            && exists b :: b in newByBlock.Keys - rest && b <= l.number && Wants(newByBlock[b], l.entry)
        decreases rest
      {
        var block :| block in rest;
        var logs :- FetchKinds(block, to, newByBlock[block]);
        ghost var done := newByBlock.Keys - rest;
        rest := rest - {block};
        assert newByBlock.Keys - rest == done + {block};
        result := result + logs;
      }
      assert newByBlock.Keys - rest == newByBlock.Keys;
      return Ok(result);
    }

    /** The fetches of Discover. On a provider that serves one chain they bring in exactly
        the wanted logs, possibly several times. */
    method Gather(from: Uint64, to: Uint64, em: Emitters) returns (r: Result<(seq<Log>, Emitters), DiscoveryError>)
      requires Valid() && from <= to && em.factory == factory
      ensures r.Err? ==> FetchFailure(r.error) || r.error.UndecodableLog? || r.error.PairUnverified?
      ensures r.Err? && source.view.Some? && to < |source.view.value.chain| ==>
                var hs := source.view.value.chain[from..to + 1];
                Linked(hs) && GatherFailure(r.error, from, to, hs)
      ensures r.Ok? ==> r.value.1.factory == factory
      ensures r.Ok? && source.view.Some? && to < |source.view.value.chain| ==>
                var hs := source.view.value.chain[from..to + 1];
                Linked(hs) && (forall l :: l in r.value.0 <==> WantedLog(hs, em, l))
                && EmittersWithLaunches(hs, em, r.value.1) && AllDecodable(hs, factory)
    {
      if source.view.Some? && to < |source.view.value.chain| {
        SegmentOfChain(source.view.value.chain, from, to);
      }
      var factoryLogs :- Fetch(from, to, [factory], EntitiesOf(FactoryKind));
      var index :- IndexLaunches(factoryLogs, em);
      AllEmittersMeaning(em, factoryLogs, FactoryKind, factory);
      ghost var served := source.view.Some? && to < |source.view.value.chain|;
      if served {
        forall b | b in index.0 ensures from <= b <= to {
          LaunchIndexBlocks(factory, factoryLogs, b);
        }
      }
      var launchedLogs :- FetchLaunched(from, to, index.0);
      var knownLogs :- FetchKinds(from, to, em);
      if served {
        GatheredIsWanted(from, to, em, factoryLogs, launchedLogs, knownLogs);
        EmittersAreLaunched(from, to, em, factoryLogs);
      }
      return Ok((factoryLogs + launchedLogs + knownLogs, index.1));
    }

    /** Discover: whatever the batch size, the bisections and the orders in which maps are
        walked, on a provider that serves one chain the result is exactly the wanted logs
        of the range, each once, in block, transaction and log order. */
    method Discover(from: Uint64, to: Uint64, known: Emitters) returns (r: Result<DiscoveryResult, DiscoveryError>)
      requires Valid()
      ensures from > to ==> r == Err(InvalidRange)
      ensures from <= to && known.factory !in {ZERO_ADDRESS, factory} ==> r == Err(FactoryMismatch)
      ensures r.Err? && source.view.Some? && from <= to < |source.view.value.chain|
              && known.factory in {ZERO_ADDRESS, factory} ==>
                var hs := source.view.value.chain[from..to + 1];
                && Linked(hs)
                && (GatherFailure(r.error, from, to, hs)
                    || (r.error.ConflictingLogs? && !DistinctCoordinates(hs)))
      ensures r.Ok? ==> r.value.emitters.factory == factory
      ensures r.Ok? ==> var logs := r.value.logs;
                forall i, j :: 0 <= i < j < |logs| ==>
                  && logs[i].number <= logs[j].number
                  && (logs[i].number == logs[j].number ==> logs[i].entry.txIndex <= logs[j].entry.txIndex)
                  && (logs[i].number == logs[j].number && logs[i].entry.txIndex == logs[j].entry.txIndex ==>
                        logs[i].entry.index < logs[j].entry.index)
      ensures r.Ok? && source.view.Some? && to < |source.view.value.chain| ==>
                var hs := source.view.value.chain[from..to + 1];
                && Linked(hs)
                && (forall l :: l in r.value.logs <==> WantedLog(hs, known.(factory := factory), l))
                && EmittersWithLaunches(hs, known.(factory := factory), r.value.emitters)
                && AllDecodable(hs, factory)
    {
      if from > to {
        return Err(InvalidRange);
      }
      if known.factory != ZERO_ADDRESS && known.factory != factory {
        return Err(FactoryMismatch);
      }
      var gathered :- Gather(from, to, known.(factory := factory));
      var deduplicated := DeduplicateAndSort(gathered.0);
      if source.view.Some? && to < |source.view.value.chain| {
        SortedIsWanted(source.view.value.chain[from..to + 1], known.(factory := factory), gathered.0, deduplicated);
      }
      if deduplicated.Err? {
        return Err(deduplicated.error);
      }
      return Ok(DiscoveryResult(deduplicated.value, gathered.1));
    }

    ghost predicate FactoryLogs(from: Uint64, to: Uint64, logs: seq<Log>)
      requires Valid() && source.view.Some?
    {
      forall l :: l in logs <==>
        l in SegmentLogs(source.view.value.chain) && Matches(Query(from, to, [factory], EntitiesOf(FactoryKind)), l)
    }

    lemma LaunchesAreFactoryLogs(from: Uint64, to: Uint64, logs: seq<Log>)
      requires Valid() && source.view.Some? && from <= to < |source.view.value.chain|
      requires FactoryLogs(from, to, logs)
      ensures Linked(source.view.value.chain[from..to + 1])
      ensures forall launch :: IsLaunch(factory, launch) ==>
                (launch in logs <==> launch in SegmentLogs(source.view.value.chain[from..to + 1]))
    {
      SegmentOfChain(source.view.value.chain, from, to);
    }

    lemma EmittersAreLaunched(from: Uint64, to: Uint64, em: Emitters, factoryLogs: seq<Log>)
      requires Valid() && source.view.Some? && from <= to < |source.view.value.chain|
      requires em.factory == factory && FactoryLogs(from, to, factoryLogs)
      ensures
        var hs := source.view.value.chain[from..to + 1];
        Linked(hs) && EmittersWithLaunches(hs, em, AllEmitters(em, factoryLogs))
    {
      LaunchesAreFactoryLogs(from, to, factoryLogs);
      var hs := source.view.value.chain[from..to + 1];
      forall kind, a
        ensures a in AddressesOf(AllEmitters(em, factoryLogs), kind) <==>
                  a in AddressesOf(em, kind) || LaunchedIn(hs, factory, kind, a)
      {
        AllEmittersMeaning(em, factoryLogs, kind, a);
      }
    }

    lemma GatheredIsWanted(
      from: Uint64, to: Uint64, em: Emitters, factoryLogs: seq<Log>, launchedLogs: seq<Log>, knownLogs: seq<Log>)
      requires Valid() && source.view.Some? && from <= to < |source.view.value.chain|
      requires em.factory == factory && FactoryLogs(from, to, factoryLogs)
      requires forall l :: l in launchedLogs <==>
                 && l in SegmentLogs(source.view.value.chain) && from <= l.number <= to
                 && HasEntity(l.entry) && KindOf(EntityOf(l.entry)) != FactoryKind
                 && WantedByIndex(LaunchIndex(factory, factoryLogs), l)
      requires forall l :: l in knownLogs <==>
                 && l in SegmentLogs(source.view.value.chain) && from <= l.number <= to
                 && Wants(em, l.entry) && KindOf(EntityOf(l.entry)) != FactoryKind
      ensures Linked(source.view.value.chain[from..to + 1])
      ensures forall l :: l in factoryLogs + launchedLogs + knownLogs <==>
                WantedLog(source.view.value.chain[from..to + 1], em, l)
    {
      LaunchesAreFactoryLogs(from, to, factoryLogs);
      var chain := source.view.value.chain;
      SegmentOfChain(chain, from, to);
      var hs := chain[from..to + 1];
      forall l ensures l in factoryLogs + launchedLogs + knownLogs <==> WantedLog(hs, em, l) {
        assert l in factoryLogs <==> l in SegmentLogs(hs) && FactoryLog(factory, l);
        assert l in knownLogs <==>
          l in SegmentLogs(hs) && Wants(em, l.entry) && KindOf(EntityOf(l.entry)) != FactoryKind;
        LaunchedLater(factory, factoryLogs, l);
        SameLaunches(hs, factory, factoryLogs, l);
        assert WantedByIndex(LaunchIndex(factory, factoryLogs), l) <==> WantedByLaunch(hs, factory, l);
        WantedParts(hs, em, l);
        hide WantedLog, Wants, SegmentLogs, WantedByIndex, WantedByLaunch, FactoryLog;
        assert l in factoryLogs + launchedLogs + knownLogs <==> l in factoryLogs || l in launchedLogs || l in knownLogs;
      }
    }

    lemma SameLaunches(hs: seq<Header>, factory: Address, logs: seq<Log>, l: Log)
      requires Linked(hs)
      requires forall launch :: IsLaunch(factory, launch) ==> (launch in logs <==> launch in SegmentLogs(hs))
      ensures WantedByLaunch(hs, factory, l) <==>
                exists launch :: launch in logs && IsLaunch(factory, launch)
                                 && launch.number <= l.number && Wants(LaunchedBy(launch), l.entry)
    {
    }

    /** A wanted log is a factory log, or one of another kind that known emitters or a launch
        want. */
    lemma WantedParts(hs: seq<Header>, em: Emitters, l: Log)
      requires Linked(hs)
      ensures WantedLog(hs, em, l) <==>
                l in SegmentLogs(hs) && HasEntity(l.entry)
                && (FactoryLog(em.factory, l)
                    || (KindOf(EntityOf(l.entry)) != FactoryKind
                        && (Wants(em, l.entry) || WantedByLaunch(hs, em.factory, l))))
    {
    }

    /** An emitter of the index wants a log exactly when a launch at or before it does. */
    lemma LaunchedLater(factory: Address, logs: seq<Log>, l: Log)
      ensures WantedByIndex(LaunchIndex(factory, logs), l)
         <==> (exists launch :: launch in logs && IsLaunch(factory, launch)
                                && launch.number <= l.number && Wants(LaunchedBy(launch), l.entry))
    {
      if b :| b in LaunchIndex(factory, logs) && b <= l.number && Wants(LaunchIndex(factory, logs)[b], l.entry) {
        LaunchIndexMeaning(factory, logs, b, l.entry);
        var launch :| launch in logs && IsLaunch(factory, launch) && launch.number == b
                      && Wants(LaunchedBy(launch), l.entry);
        assert launch.number <= l.number;
      }
      if launch :| launch in logs && IsLaunch(factory, launch)
                   && launch.number <= l.number && Wants(LaunchedBy(launch), l.entry) {
        LaunchIndexMeaning(factory, logs, launch.number, l.entry);
        assert LaunchAt(factory, logs, launch.number, l.entry);
        assert launch.number in LaunchIndex(factory, logs);
      }
    }
  }
}
