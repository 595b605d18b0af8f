/**
 The caches that order construction shares: token to condition, condition to market
 metadata, builder code to builder fee. All three are guarded by one mutex and one
 generation counter, and each is filled by single-flight loads
 (clob/order_metadata_cache.go, clob/builder_fee_cache.go, clob/cache_state.go).
 */
module OrderMetadataCache {
  import opened Common

  type LoadId = nat
  type CallerId = nat

  datatype Kind = Conditions | Markets | Fees

  /** A cached value. `terms` stands for the tick size, risk flag and fee curve of a market. */
  datatype Value =
    | Condition(id: string)
    | Market(tokens: set<string>, terms: string)
    | Fee(bps: int)

  const NO_MARKET := Market({}, "")

  datatype Failure = Canceled | Failed(reason: string)

  /** `began` is the generation at which the fetch of the value was registered. */
  datatype Entry = Entry(value: Value, began: nat, expiresAt: Option<int>)

  /** A load record. `closes` counts closings of its done channel. */
  datatype Load = Load(
    key: string, owner: CallerId, generation: nat, outcome: Option<Result<Value, Failure>>, closes: nat)

  datatype Table = Table(
    cache: map<string, Entry>, inFlight: map<string, LoadId>, records: map<LoadId, Load>)

  const EMPTY_TABLE := Table(map[], map[], map[])

  datatype Shared = Shared(generation: nat, conditions: Table, markets: Table, fees: Table)

  function TableOf(sh: Shared, kind: Kind): Table {
    match kind
    case Conditions => sh.conditions
    case Markets => sh.markets
    case Fees => sh.fees
  }

  function WithTable(sh: Shared, kind: Kind, t: Table): Shared {
    match kind
    case Conditions => sh.(conditions := t)
    case Markets => sh.(markets := t)
    case Fees => sh.(fees := t)
  }

  /* The two locked regions of a resolve */

  datatype Probe =
    | Hit(entry: Entry)
    | Join(load: LoadId, current: bool)
    | Begin(load: LoadId)

  predicate Live(e: Entry, now: int) {
    e.expiresAt.None? || now < e.expiresAt.value
  }

  /** The first region: serve the cache, find a load to wait for, or register an own load. */
  function Probing(t: Table, generation: nat, key: string, force: bool, now: int, owner: CallerId, id: LoadId)
    : (Table, Probe)
  {
    if !force && key in t.cache && Live(t.cache[key], now) then (t, Hit(t.cache[key]))
    else if key in t.inFlight && t.inFlight[key] in t.records then
      (t, Join(t.inFlight[key], t.records[t.inFlight[key]].generation == generation))
    else
      (t.(inFlight := t.inFlight[key := id],
          records := t.records[id := Load(key, owner, generation, None, 0)]),
       Begin(id))
  }

  /** Removes the load from the table if it is still the registered one, and closes it. */
  function Closing(t: Table, load: LoadId, outcome: Result<Value, Failure>): Table
    requires load in t.records
  {
    var rec := t.records[load];
    t.(inFlight := if rec.key in t.inFlight && t.inFlight[rec.key] == load then t.inFlight - {rec.key} else t.inFlight,
       records := t.records[load := rec.(outcome := Some(outcome), closes := rec.closes + 1)])
  }

  /** The second region: close the load, and commit its value if no clear intervened. */
  function Settling(t: Table, generation: nat, load: LoadId, outcome: Result<Value, Failure>, expiresAt: Option<int>): Table
    requires load in t.records
  {
    var closed, rec := Closing(t, load, outcome), t.records[load];
    if outcome.Ok? && rec.generation == generation then
      closed.(cache := closed.cache[rec.key := Entry(outcome.value, generation, expiresAt)])
    else closed
  }

  /** What a successful market load also writes: every listed token maps to the condition. */
  function Mapped(cache: map<string, Entry>, tokens: set<string>, entry: Entry): map<string, Entry> {
    cache + map t | t in tokens :: entry
  }

  /** `validateOrderMarketToken` as the pair that the code returns. */
  function Validate(market: Value, token: string, err: Option<Failure>): (Value, Option<Failure>)
    requires market.Market?
  {
    if err.Some? then (NO_MARKET, err)
    else if market.tokens != {} && token !in market.tokens then (NO_MARKET, Some(Failed("market does not contain token")))
    else (market, None)
  }

  function ToResult(pair: (Value, Option<Failure>)): Result<Value, Failure> {
    if pair.1.Some? then Err(pair.1.value) else Ok(pair.0)
  }

  /** The settling region of a market load, including its eviction branch. */
  function SettlingMarket(
    sh: Shared, load: LoadId, token: string, market: Value, err: Option<Failure>, expiresAt: Option<int>): Shared
    requires load in sh.markets.records && market.Market?
  {
    var rec := sh.markets.records[load];
    var settled := sh.(markets := Settling(sh.markets, sh.generation, load, ToResult((market, err)), expiresAt));
    if err.Some? && market.tokens != {} && token !in market.tokens then
      settled.(conditions := settled.conditions.(cache := settled.conditions.cache - {token}),
               markets := settled.markets.(cache := settled.markets.cache - {rec.key}))
    else if err.None? && rec.generation == sh.generation then
      settled.(conditions := settled.conditions.(cache :=
        Mapped(settled.conditions.cache, market.tokens, Entry(Condition(rec.key), sh.generation, None))))
    else settled
  }

  function ClearingToken(sh: Shared, token: string): Shared {
    var known := token in sh.conditions.cache && sh.conditions.cache[token].value.Condition?
                 && sh.conditions.cache[token].value.id != "";
    sh.(generation := sh.generation + 1,
        conditions := sh.conditions.(cache := sh.conditions.cache - {token}),
        markets := if known then sh.markets.(cache := sh.markets.cache - {sh.conditions.cache[token].value.id})
                   else sh.markets)
  }

  function ClearingAll(sh: Shared): Shared {
    sh.(generation := sh.generation + 1,
        conditions := sh.conditions.(cache := map[]),
        markets := sh.markets.(cache := map[]),
        fees := sh.fees.(cache := map[]))
  }

  /** The shared cache state. Each method is one region under the metadata mutex. */
  class ClientCaches {
    var generation: nat
    var conditions: Table
    var markets: Table
    var fees: Table

    ghost function View(): Shared
      reads this
    {
      Shared(generation, conditions, markets, fees)
    }

    constructor ()
      ensures View() == Shared(0, EMPTY_TABLE, EMPTY_TABLE, EMPTY_TABLE)
    {
      generation, conditions, markets, fees := 0, EMPTY_TABLE, EMPTY_TABLE, EMPTY_TABLE;
    }

    /** The lookup region, shared in shape by the three resolves. Conditions and fees never force. */
    method ProbeTable(kind: Kind, key: string, force: bool, now: int, owner: CallerId, id: LoadId) returns (r: Probe)
      requires forall k :: k in TableOf(View(), kind).inFlight ==>
                             TableOf(View(), kind).inFlight[k] in TableOf(View(), kind).records
      modifies this
      ensures
        var (t, probe) := Probing(TableOf(old(View()), kind), old(generation), key, force, now, owner, id);
        View() == WithTable(old(View()), kind, t) && r == probe
    {
      var t := Get(kind);
      if !force {
        if key in t.cache && Live(t.cache[key], now) {
          return Hit(t.cache[key]);
        }
      }
      if key in t.inFlight {
        var existing := t.inFlight[key];
        return Join(existing, t.records[existing].generation == generation);
      }
      t := t.(inFlight := t.inFlight[key := id]);
      t := t.(records := t.records[id := Load(key, owner, generation, None, 0)]);
      Put(kind, t);
      r := Begin(id);
    }

    /** The settling region of a condition or builder fee load. */
    method SettleTable(kind: Kind, load: LoadId, outcome: Result<Value, Failure>, expiresAt: Option<int>)
      requires load in TableOf(View(), kind).records
      modifies this
      ensures View() == WithTable(old(View()), kind,
                                  Settling(TableOf(old(View()), kind), old(generation), load, outcome, expiresAt))
    {
      var t := Get(kind);
      var rec := t.records[load];
      t := t.(records := t.records[load := rec.(outcome := Some(outcome), closes := rec.closes + 1)]);
      if rec.key in t.inFlight && t.inFlight[rec.key] == load {
        t := t.(inFlight := t.inFlight - {rec.key});
      }
      if outcome.Ok? && rec.generation == generation {
        t := t.(cache := t.cache[rec.key := Entry(outcome.value, generation, expiresAt)]);
      }
      Put(kind, t);
    }

    method Get(kind: Kind) returns (t: Table)
      ensures t == TableOf(View(), kind)
    {
      match kind
      case Conditions => t := conditions;
      case Markets => t := markets;
      case Fees => t := fees;
    }

    method Put(kind: Kind, t: Table)
      modifies this
      ensures View() == WithTable(old(View()), kind, t)
    {
      match kind
      case Conditions => conditions := t;
      case Markets => markets := t;
      case Fees => fees := t;
    }

    method SettleMarket(load: LoadId, token: string, market: Value, err: Option<Failure>, expiresAt: Option<int>)
      requires load in markets.records && market.Market?
      modifies this`conditions, this`markets
      ensures View() == SettlingMarket(old(View()), load, token, market, err, expiresAt)
    {
      var rec := markets.records[load];
      markets := Closing(markets, load, ToResult((market, err)));
      if err.Some? && market.tokens != {} {
        if token !in market.tokens {
          conditions := conditions.(cache := conditions.cache - {token});
          markets := markets.(cache := markets.cache - {rec.key});
        }
      }
      if err.None? && rec.generation == generation {
        markets := markets.(cache := markets.cache[rec.key := Entry(market, generation, expiresAt)]);
        MapTokens(market.tokens, Entry(Condition(rec.key), generation, None));
      }
    }

    /** Points every listed token at the market's condition. */
    method MapTokens(tokens: set<string>, entry: Entry)
      modifies this`conditions
      ensures conditions == old(conditions).(cache := Mapped(old(conditions).cache, tokens, entry))
    {
      var rest := tokens;
      while rest != {}
        invariant rest <= tokens
        invariant conditions == old(conditions).(cache := Mapped(old(conditions).cache, tokens - rest, entry))
        decreases rest
      {
        var sibling :| sibling in rest;
        conditions := conditions.(cache := conditions.cache[sibling := entry]);
        rest := rest - {sibling};
      }
      assert tokens - rest == tokens;
    }

    method ClearOrderMetadata(token: string)
      modifies this
      ensures View() == ClearingToken(old(View()), token)
    {
      generation := generation + 1;
      var conditionId := "";
      if token in conditions.cache && conditions.cache[token].value.Condition? {
        conditionId := conditions.cache[token].value.id;
      }
      conditions := conditions.(cache := conditions.cache - {token});
      if conditionId != "" {
        markets := markets.(cache := markets.cache - {conditionId});
      }
    }

    method ClearAllOrderMetadata()
      modifies this
      ensures View() == ClearingAll(old(View()))
    {
      generation := generation + 1;
      conditions := conditions.(cache := map[]);
      markets := markets.(cache := map[]);
      fees := fees.(cache := map[]);
    }
  }
}
