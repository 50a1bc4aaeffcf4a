/** Headers, logs and emitters (backend/internal/chain/types.go, decoder.go), and the
    provider that serves them.

    Hashes are symbolic: the hash of a header is a constructor applied to the header,
    so two headers with one hash are one header. A header commits to its logs, as the
    receipts root does. */
module Chain {
  import opened Wrappers

  type Uint64 = x: int | 0 <= x < 0x1_0000_0000_0000_0000

  const MAX_INT32: int := 0x7FFF_FFFF
  const MAX_INT64: int := 0x7FFF_FFFF_FFFF_FFFF

  /** Addresses are only ever compared. */
  datatype Address = Address(value: int)
  const ZERO_ADDRESS := Address(0)

  datatype EmitterKind = FactoryKind | CurveKind | TokenKind | PairKind

  datatype Entity =
    | TokenLaunched | LaunchFeesClaimed | LaunchPauseSet | TradingPauseSet
    | EngineConfigured | FutureDefaultsConfigured | FutureTreasuryConfigured
    | Trade | Graduated | CreatorFeesClaimed | ProtocolFeesClaimed | RefundCredited | RefundClaimed
    | Transfer
    | Mint | Burn | Swap | Sync

  /** The registry of NewDecoder: the one kind of contract that may emit each event. */
  function KindOf(entity: Entity): EmitterKind {
    match entity
    case TokenLaunched | LaunchFeesClaimed | LaunchPauseSet | TradingPauseSet
       | EngineConfigured | FutureDefaultsConfigured | FutureTreasuryConfigured => FactoryKind
    case Trade | Graduated | CreatorFeesClaimed | ProtocolFeesClaimed | RefundCredited | RefundClaimed => CurveKind
    case Transfer => TokenKind
    case Mint | Burn | Swap | Sync => PairKind
  }

  datatype Topic = EventTopic(entity: Entity) | OtherTopic(id: int)

  /** The further topics and the data of a log, by what they unpack to. */
  datatype Payload =
    | LaunchPayload(token: Address, curve: Address, pair: Address, engineVersion: int, rest: int)
    | EnginePayload(engineVersion: int, rest: int)
    | OtherPayload(rest: int)
    | Undecodable(rest: int)

  datatype Entry = Entry(
    txIndex: Uint64, txHash: int, index: Uint64, address: Address, topic: Option<Topic>, payload: Payload)

  datatype Hash = Root(id: int) | Keccak(header: Header)

  datatype Header = Header(number: int, parent: Hash, time: int, extra: int, entries: seq<Entry>)

  /** A log as the provider returns it. */
  datatype Log = Log(number: Uint64, blockHash: Hash, entry: Entry, removed: bool)

  datatype Emitters = Emitters(factory: Address, curves: set<Address>, tokens: set<Address>, pairs: set<Address>)

  function AddressesOf(em: Emitters, kind: EmitterKind): set<Address> {
    match kind
    case FactoryKind => {em.factory}
    case CurveKind => em.curves
    case TokenKind => em.tokens
    case PairKind => em.pairs
  }

  function AddEmitters(a: Emitters, b: Emitters): Emitters {
    Emitters(a.factory, a.curves + b.curves, a.tokens + b.tokens, a.pairs + b.pairs)
  }

  function NoEmitters(factory: Address): Emitters {
    Emitters(factory, {}, {}, {})
  }

  /** Emitters.Kind: the first set that holds the address. */
  function KindAt(em: Emitters, address: Address): Option<EmitterKind> {
    if address == em.factory then Some(FactoryKind)
    else if address in em.curves then Some(CurveKind)
    else if address in em.tokens then Some(TokenKind)
    else if address in em.pairs then Some(PairKind)
    else None
  }

  const ENGINE_VERSION: int := 1

  datatype DecodeError =
    | UnexpectedEmitter | MissingTopic | UnknownTopic | WrongEmitterKind | MalformedData | UnsupportedVersion

  /** Decoder.Decode, up to the values that its callers use. */
  function Decode(log: Log, em: Emitters): Result<Entity, DecodeError> {
    var kind := KindAt(em, log.entry.address);
    if kind.None? then Err(UnexpectedEmitter)
    else if log.entry.topic.None? then Err(MissingTopic)
    else if log.entry.topic.value.OtherTopic? then Err(UnknownTopic)
    else
      var entity := log.entry.topic.value.entity;
      if KindOf(entity) != kind.value then Err(WrongEmitterKind)
      else
        match entity
        case TokenLaunched =>
          if !log.entry.payload.LaunchPayload? then Err(MalformedData)
          else if log.entry.payload.engineVersion != ENGINE_VERSION then Err(UnsupportedVersion)
          else Ok(entity)
        case EngineConfigured =>
          if !log.entry.payload.EnginePayload? then Err(MalformedData)
          else if log.entry.payload.engineVersion != ENGINE_VERSION then Err(UnsupportedVersion)
          else Ok(entity)
        case _ =>
          if !log.entry.payload.OtherPayload? then Err(MalformedData) else Ok(entity)
  }

  // ---- which logs a set of emitters asks for ------------------------------------------

  predicate HasEntity(entry: Entry) {
    entry.topic.Some? && entry.topic.value.EventTopic?
  }

  function EntityOf(entry: Entry): Entity
    requires HasEntity(entry)
  {
    entry.topic.value.entity
  }

  /** A known contract emitting an event of its kind. */
  predicate Wants(em: Emitters, entry: Entry) {
    HasEntity(entry) && entry.address in AddressesOf(em, KindOf(EntityOf(entry)))
  }

  predicate IsLaunch(factory: Address, log: Log) {
    && log.entry.address == factory
    && log.entry.topic == Some(EventTopic(TokenLaunched))
    && log.entry.payload.LaunchPayload?
  }

  function LaunchedBy(log: Log): Emitters
    requires log.entry.payload.LaunchPayload?
  {
    Emitters(log.entry.address, {log.entry.payload.curve}, {log.entry.payload.token}, {log.entry.payload.pair})
  }

  // ---- chains -----------------------------------------------------------------------

  predicate ValidHeader(h: Header) {
    0 <= h.number <= MAX_INT64 && 0 <= h.time <= MAX_INT64
  }

  predicate LinkAt(hs: seq<Header>, i: int)
    requires 0 < i < |hs|
  {
    hs[i].parent == Keccak(hs[i - 1])
  }

  /** Consecutive, parent-linked headers. */
  predicate Linked(hs: seq<Header>) {
    && (forall i :: 0 <= i < |hs| ==> ValidHeader(hs[i]) && hs[i].number == hs[0].number + i)
    && (forall i :: 0 < i < |hs| ==> LinkAt(hs, i))
  }

  /** A whole chain, from block 0 to its tip. */
  predicate ValidChain(chain: seq<Header>) {
    |chain| > 0 && Linked(chain) && chain[0].number == 0
  }

  /** The log that an entry of a header stands for. */
  function LogAt(h: Header, e: Entry): Log
    requires ValidHeader(h)
  {
    Log(h.number, Keccak(h), e, false)
  }

  function SegmentLogs(hs: seq<Header>): set<Log>
    requires Linked(hs)
  {
    set i, e | 0 <= i < |hs| && e in hs[i].entries :: LogAt(hs[i], e)
  }

  lemma LogHome(hs: seq<Header>, log: Log) returns (i: int, e: Entry)
    requires Linked(hs) && log in SegmentLogs(hs)
    ensures 0 <= i < |hs| && e in hs[i].entries && log == LogAt(hs[i], e)
    ensures log.number == hs[0].number + i
  {
    i, e :| 0 <= i < |hs| && e in hs[i].entries && log == LogAt(hs[i], e);
  }

  /** The hash at height n on the chain that ends in `hash`. */
  function HashAt(hash: Hash, n: int): Option<Hash>
    decreases hash
  {
    match hash
    case Root(_) => None
    case Keccak(h) => if h.number == n then Some(hash) else HashAt(h.parent, n)
  }

  // ---- the provider -----------------------------------------------------------------

  datatype Query = Query(from: Uint64, to: Uint64, addresses: seq<Address>, entities: set<Entity>)

  predicate Matches(q: Query, log: Log) {
    && q.from <= log.number <= q.to
    && log.entry.address in q.addresses
    && HasEntity(log.entry) && EntityOf(log.entry) in q.entities
  }

  /** One chain as a provider may serve it: its heads, its replies to log queries in any
      order and with repetitions, and the queries it finds too large. */
  datatype View = View(
    chain: seq<Header>, safe: nat, finalized: nat, logs: Query -> seq<Log>, tooLarge: Query -> bool)

  ghost predicate ValidView(v: View) {
    && ValidChain(v.chain)
    && v.finalized <= v.safe < |v.chain|
    && (forall q: Query, l: Log :: l in v.logs(q) <==> l in SegmentLogs(v.chain) && Matches(q, l))
  }

  datatype Rpc<+T> = Answer(value: T) | Unavailable
  datatype LogReply = Logs(logs: seq<Log>) | Capacity | LogsUnavailable
  datatype Heads = Heads(latest: Header, safe: Header, finalized: Header)

  /** The RPC client. Without a view every answer is arbitrary, call by call; with one,
      every answer comes from that chain. Any call may fail, unless the provider is
      reliable: then only what the chain does not hold is unavailable, and only queries
      that are too large are refused. */
  class Provider {
    const view: Option<View>
    const reliable: bool

    ghost predicate Valid() {
      view.Some? ==> ValidView(view.value)
    }

    constructor Arbitrary(reliable: bool)
      ensures Valid() && view.None? && this.reliable == reliable
    {
      view := None;
      this.reliable := reliable;
    }

    constructor Serving(v: View, reliable: bool)
      requires ValidView(v)
      ensures Valid() && view.Some? && view.value == v && this.reliable == reliable
    {
      view := Some(v);
      this.reliable := reliable;
    }

    method HeaderByNumber(number: int) returns (r: Rpc<Header>)
      requires Valid()
      ensures view.Some? && r.Answer? ==>
                0 <= number < |view.value.chain| && r.value == view.value.chain[number]
      ensures reliable && (view.Some? ==> 0 <= number < |view.value.chain|) ==> r.Answer?
    {
      var outage: bool := *;
      if !reliable && outage {
        r := Unavailable;
      } else if view.Some? {
        r := if 0 <= number < |view.value.chain| then Answer(view.value.chain[number]) else Unavailable;
      } else {
        var header: Header := *;
        r := Answer(header);
      }
    }

    method ReadHeads() returns (r: Rpc<Heads>)
      requires Valid()
      ensures view.Some? && r.Answer? ==>
                && r.value.latest == view.value.chain[|view.value.chain| - 1]
                && r.value.safe == view.value.chain[view.value.safe]
                && r.value.finalized == view.value.chain[view.value.finalized]
      ensures reliable ==> r.Answer?
    {
      var outage: bool := *;
      if !reliable && outage {
        r := Unavailable;
      } else if view.Some? {
        var v := view.value;
        r := Answer(Heads(v.chain[|v.chain| - 1], v.chain[v.safe], v.chain[v.finalized]));
      } else {
        var heads: Heads := *;
        r := Answer(heads);
      }
    }

    method FilterLogs(q: Query) returns (r: LogReply)
      requires Valid()
      ensures view.Some? && r.Logs? ==> r.logs == view.value.logs(q)
      ensures view.Some? && r.Capacity? ==> view.value.tooLarge(q)
      ensures reliable ==> !r.LogsUnavailable?
    {
      var outage: bool := *;
      if !reliable && outage {
        r := LogsUnavailable;
      } else if view.Some? {
        r := if view.value.tooLarge(q) then Capacity else Logs(view.value.logs(q));
      } else if * {
        r := Capacity;
      } else {
        var logs: seq<Log> := *;
        r := Logs(logs);
      }
    }
  }
}
