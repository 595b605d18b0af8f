/**
 Every interleaving of resolves, fetches and invalidations over the shared order
 metadata caches (clob/order_metadata_cache.go, clob/builder_fee_cache.go).

 A schedule is any sequence of steps; a step that is not enabled changes nothing. A
 market resolve is a condition resolve followed by a market resolve under the
 condition found. Each clear appends to `log`, so the generation is the number of
 clears so far, `started` counts the clears before a resolve began and `began` the
 clears before a fetch was registered: clear number `i` separates the two exactly when
 began <= i < started.
 */
module MetadataProtocol {
  import opened Common
  import opened OrderMetadataCache

  datatype Clear = All | Token(token: string)

  datatype Phase =
    | Looping
    | Waiting(load: LoadId, joined: bool)
    | Fetching(load: LoadId)
    | Done(result: Result<Value, Failure>, began: nat)

  datatype Caller = Caller(kind: Kind, key: string, token: string, force: bool, started: nat, phase: Phase)

  datatype System = System(log: seq<Clear>, shared: Shared, callers: map<CallerId, Caller>)

  const START := System([], Shared(0, EMPTY_TABLE, EMPTY_TABLE, EMPTY_TABLE), map[])

  datatype Step =
    | ResolveCondition(c: CallerId, token: string)
    | ResolveFee(c: CallerId, code: string)
    | ResolveMarket(c: CallerId, from: CallerId, force: bool)
    | Look(c: CallerId, now: int, id: LoadId)
    | Wake(c: CallerId, alive: bool)
    | GiveUp(c: CallerId)
    | Fetched(c: CallerId, response: Result<Value, Failure>, expiresAt: Option<int>)
    | Invalidate(what: Clear)

  predicate Typed(kind: Kind, v: Value) {
    match kind
    case Conditions => v.Condition? && v.id != ""
    case Markets => v.Market?
    case Fees => v.Fee?
  }

  function Enter(s: System, c: CallerId, kind: Kind, key: string, token: string, force: bool): System {
    if c in s.callers then s
    else s.(callers := s.callers[c := Caller(kind, key, token, force, |s.log|, Looping)])
  }

  /** A condition resolve that has found the condition of its token. */
  predicate Found(s: System, c: CallerId) {
    c in s.callers && s.callers[c].kind.Conditions? && s.callers[c].phase.Done? && s.callers[c].phase.result.Ok?
    && s.callers[c].phase.result.value.Condition?
  }

  function DoResolveMarket(s: System, c: CallerId, from: CallerId, force: bool): System {
    if Found(s, from) then Enter(s, c, Markets, s.callers[from].phase.result.value.id, s.callers[from].key, force)
    else s
  }

  /** Market values are checked against the caller's token before they are returned. */
  function Presented(caller: Caller, r: Result<Value, Failure>): Result<Value, Failure> {
    if caller.kind.Markets? && r.Ok? && r.value.Market? then ToResult(Validate(r.value, caller.token, None)) else r
  }

  function DoLook(s: System, c: CallerId, now: int, id: LoadId): System {
    if c in s.callers && s.callers[c].phase.Looping? && id !in TableOf(s.shared, s.callers[c].kind).records then
      var caller := s.callers[c];
      var (t, probe) := Probing(TableOf(s.shared, caller.kind), s.shared.generation, caller.key, caller.force, now, c, id);
      var phase :=
        match probe
        case Hit(e) => Done(Presented(caller, Ok(e.value)), e.began)
        case Join(load, current) => Waiting(load, current)
        case Begin(load) => Fetching(load);
      s.(shared := WithTable(s.shared, caller.kind, t), callers := s.callers[c := caller.(phase := phase)])
    else s
  }

  function DoWake(s: System, c: CallerId, alive: bool): System {
    if c in s.callers && s.callers[c].phase.Waiting? then
      var caller := s.callers[c];
      var records := TableOf(s.shared, caller.kind).records;
      if caller.phase.load in records && records[caller.phase.load].outcome.Some? then
        var rec := records[caller.phase.load];
        var phase :=
          if !caller.phase.joined || (alive && rec.outcome.value == Err(Canceled)) then Looping
          else Done(Presented(caller, rec.outcome.value), rec.generation);
        s.(callers := s.callers[c := caller.(phase := phase)])
      else s
    else s
  }

  function DoGiveUp(s: System, c: CallerId): System {
    if c in s.callers && s.callers[c].phase.Waiting? then
      s.(callers := s.callers[c := s.callers[c].(phase := Done(Err(Canceled), 0))])
    else s
  }

  /** What the fetch of a load yields from a response, as the value and error that the code holds. */
  function Outcome(caller: Caller, response: Result<Value, Failure>): Result<Value, Failure> {
    if response.Ok? && caller.kind.Conditions? && response.value == Condition("") then Err(Failed("missing condition ID"))
    else response
  }

  /** The market and error held when a market fetch ends. */
  function MarketOutcome(token: string, response: Result<Value, Failure>): (Value, Option<Failure>)
    requires response.Ok? ==> response.value.Market?
  {
    if response.Err? then (NO_MARKET, Some(response.error)) else Validate(response.value, token, None)
  }

  predicate CanSettle(s: System, c: CallerId, response: Result<Value, Failure>) {
    && c in s.callers && s.callers[c].phase.Fetching?
    && s.callers[c].phase.load in TableOf(s.shared, s.callers[c].kind).records
    && (Outcome(s.callers[c], response).Ok? ==> Typed(s.callers[c].kind, response.value))
  }

  function DoFetched(s: System, c: CallerId, response: Result<Value, Failure>, expiresAt: Option<int>): System {
    if CanSettle(s, c, response) then
      var caller := s.callers[c];
      var kind, load := caller.kind, caller.phase.load;
      var rec := TableOf(s.shared, kind).records[load];
      if kind.Markets? then
        var (market, err) := MarketOutcome(caller.token, response);
        s.(shared := SettlingMarket(s.shared, load, caller.token, market, err, expiresAt),
           callers := s.callers[c := caller.(phase := Done(ToResult((market, err)), rec.generation))])
      else
        var outcome := Outcome(caller, response);
        var t := Settling(TableOf(s.shared, kind), s.shared.generation, load, outcome, expiresAt);
        s.(shared := WithTable(s.shared, kind, t),
           callers := s.callers[c := caller.(phase := Done(outcome, rec.generation))])
    else s
  }

  function DoInvalidate(s: System, what: Clear): System {
    s.(log := s.log + [what],
       shared := match what case All => ClearingAll(s.shared) case Token(t) => ClearingToken(s.shared, t))
  }

  function Do(s: System, step: Step): System {
    match step
    case ResolveCondition(c, token) => Enter(s, c, Conditions, token, token, false)
    case ResolveFee(c, code) => Enter(s, c, Fees, code, "", false)
    case ResolveMarket(c, from, force) => DoResolveMarket(s, c, from, force)
    case Look(c, now, id) => DoLook(s, c, now, id)
    case Wake(c, alive) => DoWake(s, c, alive)
    case GiveUp(c) => DoGiveUp(s, c)
    case Fetched(c, response, expiresAt) => DoFetched(s, c, response, expiresAt)
    case Invalidate(what) => DoInvalidate(s, what)
  }

  function Run(schedule: seq<Step>): System {
    if schedule == [] then START
    else Do(Run(schedule[..|schedule| - 1]), schedule[|schedule| - 1])
  }

  /* Single flight */

  predicate Owns(caller: Caller, kind: Kind, key: string, load: LoadId) {
    caller.kind == kind && caller.key == key && caller.phase == Fetching(load)
  }

  ghost predicate RecordGood(s: System, kind: Kind, l: LoadId)
    requires l in TableOf(s.shared, kind).records
  {
    var t := TableOf(s.shared, kind);
    var rec := t.records[l];
    && rec.generation <= |s.log|
    && (rec.outcome.None? ==>
          && rec.closes == 0
          && rec.key in t.inFlight && t.inFlight[rec.key] == l
          && rec.owner in s.callers && Owns(s.callers[rec.owner], kind, rec.key, l))
    && (rec.outcome.Some? ==> rec.closes == 1 && (rec.outcome.value.Ok? ==> Typed(kind, rec.outcome.value.value)))
  }

  ghost predicate FlightGood(t: Table, k: string)
    requires k in t.inFlight
  {
    t.inFlight[k] in t.records && t.records[t.inFlight[k]].key == k && t.records[t.inFlight[k]].outcome.None?
  }

  ghost predicate TableGood(s: System, kind: Kind) {
    var t := TableOf(s.shared, kind);
    && (forall l :: l in t.records ==> RecordGood(s, kind, l))
    && (forall k :: k in t.inFlight ==> FlightGood(t, k))
  }

  /** What a caller knows of the load it waits for or owns: a joined or own load was registered
      no earlier than the caller started. */
  ghost predicate CallerGood(caller: Caller, c: CallerId, t: Table, generation: nat) {
    && caller.started <= generation
    && (caller.kind.Markets? ==> caller.key != "")
    && match caller.phase
       case Looping => true
       case Waiting(l, joined) =>
         l in t.records && t.records[l].key == caller.key && (joined ==> caller.started <= t.records[l].generation)
       case Fetching(l) =>
         && l in t.records && t.records[l].owner == c && t.records[l].key == caller.key
         && t.records[l].outcome.None? && caller.started <= t.records[l].generation
       case Done(result, began) => result.Ok? ==> Typed(caller.kind, result.value)
  }

  ghost predicate CallersGood(s: System) {
    forall c :: c in s.callers ==>
      CallerGood(s.callers[c], c, TableOf(s.shared, s.callers[c].kind), |s.log|)
  }

  /** No clear between `from` and `to` wiped the key that the value is cached under. */
  ghost predicate Unwiped(log: seq<Clear>, kind: Kind, key: string, from: nat, to: nat) {
    forall i :: from <= i < to && i < |log| ==> log[i] != All && (kind.Conditions? ==> log[i] != Token(key))
  }

  ghost predicate EntriesGood(s: System, kind: Kind) {
    forall k :: k in TableOf(s.shared, kind).cache ==>
      var e := TableOf(s.shared, kind).cache[k];
      Typed(kind, e.value) && e.began <= |s.log| && Unwiped(s.log, kind, k, e.began, |s.log|)
  }

  /** A value handed to a caller survives every clear made before the caller started. */
  ghost predicate ResultsGood(s: System) {
    forall c :: c in s.callers && s.callers[c].phase.Done? && s.callers[c].phase.result.Ok? ==>
      Unwiped(s.log, s.callers[c].kind, s.callers[c].key, s.callers[c].phase.began, s.callers[c].started)
  }

  ghost predicate Invariant(s: System) {
    && s.shared.generation == |s.log|
    && (forall kind: Kind :: TableGood(s, kind) && EntriesGood(s, kind))
    && CallersGood(s)
    && ResultsGood(s)
  }

  /** A step that leaves a table and the owners of its open loads alone keeps the table good. */
  lemma TableKeeps(s: System, t: System, kind: Kind)
    requires TableGood(s, kind) && TableOf(t.shared, kind) == TableOf(s.shared, kind) && |s.log| <= |t.log|
    requires forall c :: c in s.callers && s.callers[c].kind == kind && s.callers[c].phase.Fetching? ==>
                           c in t.callers && t.callers[c] == s.callers[c]
    ensures TableGood(t, kind)
  {
    forall l | l in TableOf(t.shared, kind).records
      ensures RecordGood(t, kind, l)
    {
      assert RecordGood(s, kind, l);
    }
  }

  /** Steps that only move one caller that owns no load. */
  lemma CallerKeeps(s: System, c: CallerId, caller: Caller)
    requires Invariant(s)
    requires c in s.callers ==> !s.callers[c].phase.Fetching?
    requires CallerGood(caller, c, TableOf(s.shared, caller.kind), |s.log|)
    requires caller.phase.Done? && caller.phase.result.Ok? ==>
               Unwiped(s.log, caller.kind, caller.key, caller.phase.began, caller.started)
    ensures Invariant(s.(callers := s.callers[c := caller]))
  {
    var t := s.(callers := s.callers[c := caller]);
    forall kind: Kind
      ensures TableGood(t, kind) && EntriesGood(t, kind)
    {
      assert TableGood(s, kind) && EntriesGood(s, kind);
      TableKeeps(s, t, kind);
    }
  }

  lemma EnterKeeps(s: System, c: CallerId, kind: Kind, key: string, token: string, force: bool)
    requires Invariant(s) && (kind.Markets? ==> key != "")
    ensures Invariant(Enter(s, c, kind, key, token, force))
  {
    if c !in s.callers {
      CallerKeeps(s, c, Caller(kind, key, token, force, |s.log|, Looping));
    }
  }

  lemma WakeKeeps(s: System, c: CallerId, alive: bool)
    requires Invariant(s)
    ensures Invariant(DoWake(s, c, alive)) && Invariant(DoGiveUp(s, c))
  {
    if c in s.callers && s.callers[c].phase.Waiting? {
      var caller := s.callers[c];
      assert TableGood(s, caller.kind);
      assert RecordGood(s, caller.kind, caller.phase.load);
      CallerKeeps(s, c, caller.(phase := Done(Err(Canceled), 0)));
      if DoWake(s, c, alive) != s {
        CallerKeeps(s, c, DoWake(s, c, alive).callers[c]);
      }
    }
  }

  lemma LookKeeps(s: System, c: CallerId, now: int, id: LoadId)
    requires Invariant(s)
    ensures Invariant(DoLook(s, c, now, id))
  {
    var t := DoLook(s, c, now, id);
    if t != s {
      var caller := s.callers[c];
      var table := TableOf(s.shared, caller.kind);
      assert TableGood(s, caller.kind) && EntriesGood(s, caller.kind);
      match Probing(table, s.shared.generation, caller.key, caller.force, now, c, id).1
      case Begin(_) =>
        BeginKeeps(s, c, id);
        assert t == Registered(s, c, id);
      case Hit(_) =>
        CallerKeeps(s, c, t.callers[c]);
        assert t == s.(callers := s.callers[c := t.callers[c]]);
      case Join(l, _) =>
        assert FlightGood(table, caller.key) && RecordGood(s, caller.kind, l);
        CallerKeeps(s, c, t.callers[c]);
        assert t == s.(callers := s.callers[c := t.callers[c]]);
    }
  }

  function Registered(s: System, c: CallerId, id: LoadId): System
    requires c in s.callers
  {
    var caller := s.callers[c];
    var t := TableOf(s.shared, caller.kind);
    var t' := t.(inFlight := t.inFlight[caller.key := id],
                 records := t.records[id := Load(caller.key, c, s.shared.generation, None, 0)]);
    System(s.log, WithTable(s.shared, caller.kind, t'), s.callers[c := caller.(phase := Fetching(id))])
  }

  /** Registering a load: no load of the key was in flight, so the new one is the only one. */
  lemma BeginKeeps(s: System, c: CallerId, id: LoadId)
    requires Invariant(s) && c in s.callers && s.callers[c].phase.Looping?
    requires id !in TableOf(s.shared, s.callers[c].kind).records
    requires s.callers[c].key !in TableOf(s.shared, s.callers[c].kind).inFlight
    ensures Invariant(Registered(s, c, id))
  {
    var t, kind := Registered(s, c, id), s.callers[c].kind;
    forall k: Kind
      ensures TableGood(t, k) && EntriesGood(t, k)
    {
      assert TableGood(s, k) && EntriesGood(s, k);
      if k != kind {
        TableKeeps(s, t, k);
      } else {
        RegisteredTable(s, c, id);
      }
    }
  }

  lemma RegisteredTable(s: System, c: CallerId, id: LoadId)
    requires Invariant(s) && c in s.callers && s.callers[c].phase.Looping?
    requires id !in TableOf(s.shared, s.callers[c].kind).records
    requires s.callers[c].key !in TableOf(s.shared, s.callers[c].kind).inFlight
    ensures TableGood(Registered(s, c, id), s.callers[c].kind)
  {
    var t, kind := Registered(s, c, id), s.callers[c].kind;
    assert TableGood(s, kind);
    forall l | l in TableOf(t.shared, kind).records
      ensures RecordGood(t, kind, l)
    {
      if l != id {
        assert RecordGood(s, kind, l);
      }
    }
  }

  function WithCache(s: System, kind: Kind, cache: map<string, Entry>): System {
    s.(shared := WithTable(s.shared, kind, TableOf(s.shared, kind).(cache := cache)))
  }

  /** Entries may be dropped, and entries fetched in the current generation may be added. */
  lemma CacheKeeps(s: System, kind: Kind, cache: map<string, Entry>)
    requires Invariant(s)
    requires forall k :: k in cache ==>
               || (k in TableOf(s.shared, kind).cache && cache[k] == TableOf(s.shared, kind).cache[k])
               || (Typed(kind, cache[k].value) && cache[k].began == |s.log|)
    ensures Invariant(WithCache(s, kind, cache))
  {
    var t := WithCache(s, kind, cache);
    forall k: Kind
      ensures TableGood(t, k) && EntriesGood(t, k)
    {
      assert TableGood(s, k) && EntriesGood(s, k);
      if k != kind {
        TableKeeps(s, t, k);
      } else {
        forall l | l in TableOf(t.shared, k).records
          ensures RecordGood(t, k, l)
        {
          assert RecordGood(s, k, l);
        }
        assert forall x :: x in TableOf(t.shared, k).inFlight ==> FlightGood(TableOf(s.shared, k), x);
      }
    }
  }

  /** The owner closes its load and returns its own outcome. */
  function Closed(s: System, c: CallerId, outcome: Result<Value, Failure>): System
    requires c in s.callers && s.callers[c].phase.Fetching?
    requires s.callers[c].phase.load in TableOf(s.shared, s.callers[c].kind).records
  {
    var caller := s.callers[c];
    var t := TableOf(s.shared, caller.kind);
    System(s.log,
           WithTable(s.shared, caller.kind, Closing(t, caller.phase.load, outcome)),
           s.callers[c := caller.(phase := Done(outcome, t.records[caller.phase.load].generation))])
  }

  lemma ClosingTableKeeps(s: System, c: CallerId, outcome: Result<Value, Failure>)
    requires c in s.callers && s.callers[c].phase.Fetching? && TableGood(s, s.callers[c].kind)
    requires CallerGood(s.callers[c], c, TableOf(s.shared, s.callers[c].kind), |s.log|)
    requires outcome.Ok? ==> Typed(s.callers[c].kind, outcome.value)
    ensures TableGood(Closed(s, c, outcome), s.callers[c].kind)
  {
    var t, kind, load := Closed(s, c, outcome), s.callers[c].kind, s.callers[c].phase.load;
    forall l | l in TableOf(t.shared, kind).records
      ensures RecordGood(t, kind, l)
    {
      assert RecordGood(s, kind, l) && RecordGood(s, kind, load);
    }
    forall k | k in TableOf(t.shared, kind).inFlight
      ensures FlightGood(TableOf(t.shared, kind), k)
    {
      assert FlightGood(TableOf(s.shared, kind), k) && RecordGood(s, kind, load);
    }
  }

  lemma CloseKeeps(s: System, c: CallerId, outcome: Result<Value, Failure>)
    requires Invariant(s) && c in s.callers && s.callers[c].phase.Fetching?
    requires outcome.Ok? ==> Typed(s.callers[c].kind, outcome.value)
    ensures s.callers[c].phase.load in TableOf(s.shared, s.callers[c].kind).records
    ensures Invariant(Closed(s, c, outcome))
  {
    var t, kind, load := Closed(s, c, outcome), s.callers[c].kind, s.callers[c].phase.load;
    forall k: Kind
      ensures TableGood(t, k) && EntriesGood(t, k)
    {
      assert TableGood(s, k) && EntriesGood(s, k);
      if k != kind {
        TableKeeps(s, t, k);
      } else {
        ClosingTableKeeps(s, c, outcome);
      }
    }
    forall c' | c' in t.callers
      ensures CallerGood(t.callers[c'], c', TableOf(t.shared, t.callers[c'].kind), |t.log|)
    {
      assert CallerGood(s.callers[c'], c', TableOf(s.shared, s.callers[c'].kind), |s.log|);
    }
  }

  /** The eviction branch of a market settle never runs: a failed validation, like a failed fetch,
      leaves no token list behind. */
  lemma EvictionIsDead(token: string, response: Result<Value, Failure>)
    requires response.Ok? ==> response.value.Market?
    ensures MarketOutcome(token, response).1.Some? ==> MarketOutcome(token, response).0.tokens == {}
  {
  }

  lemma MarketFetchedKeeps(s: System, c: CallerId, response: Result<Value, Failure>, expiresAt: Option<int>)
    requires Invariant(s) && CanSettle(s, c, response) && s.callers[c].kind.Markets?
    ensures Invariant(DoFetched(s, c, response, expiresAt))
  {
    var caller := s.callers[c];
    var (market, err) := MarketOutcome(caller.token, response);
    EvictionIsDead(caller.token, response);
    CloseKeeps(s, c, ToResult((market, err)));
    var closed := Closed(s, c, ToResult((market, err)));
    var rec := s.shared.markets.records[caller.phase.load];
    if err.None? && rec.generation == s.shared.generation {
      var one := WithCache(closed, Markets, closed.shared.markets.cache[rec.key := Entry(market, |s.log|, expiresAt)]);
      CacheKeeps(closed, Markets, closed.shared.markets.cache[rec.key := Entry(market, |s.log|, expiresAt)]);
      assert CallerGood(caller, c, s.shared.markets, |s.log|);
      var mapped := Mapped(one.shared.conditions.cache, market.tokens, Entry(Condition(rec.key), |s.log|, None));
      CacheKeeps(one, Conditions, mapped);
      assert DoFetched(s, c, response, expiresAt) == WithCache(one, Conditions, mapped);
    } else {
      assert DoFetched(s, c, response, expiresAt) == closed;
    }
  }

  lemma FetchedKeeps(s: System, c: CallerId, response: Result<Value, Failure>, expiresAt: Option<int>)
    requires Invariant(s)
    ensures Invariant(DoFetched(s, c, response, expiresAt))
  {
    if CanSettle(s, c, response) {
      var kind := s.callers[c].kind;
      if kind.Markets? {
        MarketFetchedKeeps(s, c, response, expiresAt);
      } else {
        var outcome := Outcome(s.callers[c], response);
        var rec := TableOf(s.shared, kind).records[s.callers[c].phase.load];
        CloseKeeps(s, c, outcome);
        var closed := Closed(s, c, outcome);
        if outcome.Ok? && rec.generation == s.shared.generation {
          var cache := TableOf(closed.shared, kind).cache[rec.key := Entry(outcome.value, |s.log|, expiresAt)];
          CacheKeeps(closed, kind, cache);
          assert DoFetched(s, c, response, expiresAt) == WithCache(closed, kind, cache);
        } else {
          assert DoFetched(s, c, response, expiresAt) == closed;
        }
      }
    }
  }

  /** A clear drops what it wipes; what it keeps was not wiped by it. */
  lemma InvalidateKeeps(s: System, what: Clear)
    requires Invariant(s)
    ensures Invariant(DoInvalidate(s, what))
  {
    var t := DoInvalidate(s, what);
    forall kind: Kind
      ensures TableGood(t, kind) && EntriesGood(t, kind)
    {
      InvalidateKeepsLoads(s, what, kind);
      InvalidateKeepsEntries(s, what, kind);
    }
    forall c | c in t.callers
      ensures CallerGood(t.callers[c], c, TableOf(t.shared, t.callers[c].kind), |t.log|)
    {
      assert CallerGood(s.callers[c], c, TableOf(s.shared, s.callers[c].kind), |s.log|);
    }
  }

  lemma InvalidateKeepsLoads(s: System, what: Clear, kind: Kind)
    requires Invariant(s)
    ensures TableGood(DoInvalidate(s, what), kind)
  {
    var t := DoInvalidate(s, what);
    assert TableGood(s, kind);
    forall l | l in TableOf(t.shared, kind).records
      ensures RecordGood(t, kind, l)
    {
      assert RecordGood(s, kind, l);
    }
    assert forall x :: x in TableOf(t.shared, kind).inFlight ==> FlightGood(TableOf(s.shared, kind), x);
  }

  lemma InvalidateKeepsEntries(s: System, what: Clear, kind: Kind)
    requires Invariant(s)
    ensures EntriesGood(DoInvalidate(s, what), kind)
  {
    var t := DoInvalidate(s, what);
    assert EntriesGood(s, kind);
    forall k | k in TableOf(t.shared, kind).cache
      ensures k in TableOf(s.shared, kind).cache && TableOf(t.shared, kind).cache[k] == TableOf(s.shared, kind).cache[k]
      ensures what != All && (kind.Conditions? ==> what != Token(k))
    {
    }
  }

  lemma StepKeeps(s: System, step: Step)
    requires Invariant(s)
    ensures Invariant(Do(s, step))
  {
    match step
    case ResolveCondition(c, token) => EnterKeeps(s, c, Conditions, token, token, false);
    case ResolveFee(c, code) => EnterKeeps(s, c, Fees, code, "", false);
    case ResolveMarket(c, from, force) =>
      if Found(s, from) {
        assert CallerGood(s.callers[from], from, s.shared.conditions, |s.log|);
        EnterKeeps(s, c, Markets, s.callers[from].phase.result.value.id, s.callers[from].key, force);
      }
    case Look(c, now, id) => LookKeeps(s, c, now, id);
    case Wake(c, alive) => WakeKeeps(s, c, alive);
    case GiveUp(c) => WakeKeeps(s, c, true);
    case Fetched(c, response, expiresAt) => FetchedKeeps(s, c, response, expiresAt);
    case Invalidate(what) => InvalidateKeeps(s, what);
  }

  lemma RunSnoc(schedule: seq<Step>, step: Step)
    ensures Run(schedule + [step]) == Do(Run(schedule), step)
  {
    assert (schedule + [step])[..|schedule|] == schedule;
  }

  lemma ClearIsLogged(schedule: seq<Step>, what: Clear)
    ensures Run(schedule + [Invalidate(what)]).log == Run(schedule).log + [what]
    ensures Run(schedule + [Invalidate(what)]).callers == Run(schedule).callers
  {
    hide Run;
    RunSnoc(schedule, Invalidate(what));
  }

  lemma {:induction false} Reachable(schedule: seq<Step>)
    ensures Invariant(Run(schedule))
  {
    if schedule != [] {
      Reachable(schedule[..|schedule| - 1]);
      StepKeeps(Run(schedule[..|schedule| - 1]), schedule[|schedule| - 1]);
    }
  }

  /** Single flight. At most one caller fetches a given condition, token or builder code, also
      across generation changes. */
  lemma SingleFlight(schedule: seq<Step>, c: CallerId, c': CallerId)
    requires
      var callers := Run(schedule).callers;
      && c in callers && c' in callers && callers[c].phase.Fetching? && callers[c'].phase.Fetching?
      && callers[c].kind == callers[c'].kind && callers[c].key == callers[c'].key
    ensures c == c'
  {
    Reachable(schedule);
    var s := Run(schedule);
    var kind, l, l' := s.callers[c].kind, s.callers[c].phase.load, s.callers[c'].phase.load;
    assert CallerGood(s.callers[c], c, TableOf(s.shared, kind), |s.log|);
    assert CallerGood(s.callers[c'], c', TableOf(s.shared, kind), |s.log|);
    assert TableGood(s, kind);
    assert RecordGood(s, kind, l) && RecordGood(s, kind, l');
  }

  /** The life of a load. While open it is the registered load of its key and its owner is fetching;
      once settled it is no longer registered and its done channel was closed exactly once. */
  lemma LoadLife(schedule: seq<Step>, kind: Kind, l: LoadId)
    requires l in TableOf(Run(schedule).shared, kind).records
    ensures
      var s := Run(schedule);
      var t := TableOf(s.shared, kind);
      var rec := t.records[l];
      && rec.closes == (if rec.outcome.Some? then 1 else 0)
      && (rec.outcome.None? <==> (rec.key in t.inFlight && t.inFlight[rec.key] == l))
      && (rec.outcome.None? ==> rec.owner in s.callers && s.callers[rec.owner].phase == Fetching(l))
  {
    Reachable(schedule);
    var s := Run(schedule);
    assert TableGood(s, kind);
    assert RecordGood(s, kind, l);
    var t := TableOf(s.shared, kind);
    if t.records[l].key in t.inFlight {
      assert FlightGood(t, t.records[l].key);
    }
  }

  lemma OtherStepsKeepLoads(s: System, step: Step, kind: Kind, k: string)
    requires Invariant(s) && !step.Fetched? && k in TableOf(s.shared, kind).inFlight
    ensures k in TableOf(Do(s, step).shared, kind).inFlight
    ensures TableOf(Do(s, step).shared, kind).inFlight[k] == TableOf(s.shared, kind).inFlight[k]
  {
    assert TableGood(s, kind);
    assert FlightGood(TableOf(s.shared, kind), k);
  }

  lemma FetchRemovesOwnLoad(s: System, c: CallerId, response: Result<Value, Failure>, e: Option<int>, kind: Kind, k: string)
    requires Invariant(s) && k in TableOf(s.shared, kind).inFlight
    requires
      var t, t' := TableOf(s.shared, kind), TableOf(DoFetched(s, c, response, e).shared, kind);
      k !in t'.inFlight || t'.inFlight[k] != t.inFlight[k]
    ensures c in s.callers && s.callers[c].phase == Fetching(TableOf(s.shared, kind).inFlight[k])
    ensures s.callers[c].kind == kind
  {
    hide Invariant, Outcome, MarketOutcome;
    if CanSettle(s, c, response) {
      LoadKeyIsOwn(s, c);
    }
  }

  lemma LoadKeyIsOwn(s: System, c: CallerId)
    requires Invariant(s) && c in s.callers && s.callers[c].phase.Fetching?
    ensures
      var t := TableOf(s.shared, s.callers[c].kind);
      s.callers[c].phase.load in t.records && t.records[s.callers[c].phase.load].key == s.callers[c].key
  {
    assert CallerGood(s.callers[c], c, TableOf(s.shared, s.callers[c].kind), |s.log|);
  }

  /** A load leaves the table only when its owner settles it; no clear and no other caller removes it. */
  lemma OnlyOwnerRemoves(schedule: seq<Step>, step: Step, kind: Kind, k: string)
    requires k in TableOf(Run(schedule).shared, kind).inFlight
    requires
      var t, t' := TableOf(Run(schedule).shared, kind), TableOf(Do(Run(schedule), step).shared, kind);
      k !in t'.inFlight || t'.inFlight[k] != t.inFlight[k]
    ensures
      var t := TableOf(Run(schedule).shared, kind);
      step.Fetched? && t.inFlight[k] in t.records && step.c == t.records[t.inFlight[k]].owner
  {
    Reachable(schedule);
    var s := Run(schedule);
    if step.Fetched? {
      FetchRemovesOwnLoad(s, step.c, step.response, step.expiresAt, kind, k);
      assert CallerGood(s.callers[step.c], step.c, TableOf(s.shared, kind), |s.log|);
    } else {
      OtherStepsKeepLoads(s, step, kind, k);
    }
  }

  lemma StepExtends(s: System, step: Step)
    ensures s.log <= Do(s, step).log
    ensures forall c :: c in s.callers ==> c in Do(s, step).callers && Do(s, step).callers[c].started == s.callers[c].started
    ensures forall c :: c in Do(s, step).callers && c !in s.callers ==> Do(s, step).callers[c].started == |s.log|
  {
  }

  /** Along a run the clear log only grows, and later resolves start after the clears so far. */
  lemma {:induction false} RunExtends(schedule: seq<Step>, more: seq<Step>)
    ensures Run(schedule).log <= Run(schedule + more).log
    ensures forall c :: c in Run(schedule + more).callers && c !in Run(schedule).callers ==>
                          |Run(schedule).log| <= Run(schedule + more).callers[c].started
  {
    hide Run, Do;
    if more == [] {
      assert schedule + more == schedule;
    } else {
      var init := more[..|more| - 1];
      RunExtends(schedule, init);
      RunSnoc(schedule + init, more[|more| - 1]);
      assert schedule + more == schedule + init + [more[|more| - 1]];
      StepExtends(Run(schedule + init), more[|more| - 1]);
    }
  }

  /** Freshness after a full invalidation. A resolve of any of the three caches that starts after a
      full clear only returns a value whose fetch was registered after that clear, whether it came
      from the cache, from a joined load or from the caller's own load. */
  lemma FreshAfterClearAll(before: seq<Step>, after: seq<Step>, c: CallerId)
    requires
      var s := Run(before + [Invalidate(All)] + after);
      && c !in Run(before).callers && c in s.callers
      && s.callers[c].phase.Done? && s.callers[c].phase.result.Ok?
    ensures
      var began := Run(before + [Invalidate(All)] + after).callers[c].phase.began;
      && began > |Run(before).log|
      && (forall kind, l :: l in TableOf(Run(before).shared, kind).records ==>
            TableOf(Run(before).shared, kind).records[l].generation < began)
  {
    hide Run, Do;
    Reachable(before);
    var cleared := before + [Invalidate(All)];
    ClearIsLogged(before, All);
    RunExtends(cleared, after);
    Reachable(cleared + after);
    var s, n := Run(cleared + after), |Run(before).log|;
    assert s.log[n] == All;
    forall kind, l | l in TableOf(Run(before).shared, kind).records
      ensures TableOf(Run(before).shared, kind).records[l].generation <= n
    {
      assert TableGood(Run(before), kind);
      assert RecordGood(Run(before), kind, l);
    }
  }

  /** A fetch whose outcome is a value: for a market, one that lists the fetching caller's token or none. */
  predicate Succeeds(caller: Caller, response: Result<Value, Failure>) {
    && response.Ok? && Typed(caller.kind, response.value)
    && (caller.kind.Markets? ==> MarketOutcome(caller.token, response).1.None?)
  }

  lemma CommitStores(s: System, c: CallerId, response: Result<Value, Failure>, expiresAt: Option<int>)
    requires Invariant(s) && c in s.callers && s.callers[c].phase.Fetching? && Succeeds(s.callers[c], response)
    requires s.callers[c].phase.load in TableOf(s.shared, s.callers[c].kind).records
    requires TableOf(s.shared, s.callers[c].kind).records[s.callers[c].phase.load].generation == |s.log|
    ensures
      var t := TableOf(DoFetched(s, c, response, expiresAt).shared, s.callers[c].kind);
      && s.callers[c].key in t.cache
      && t.cache[s.callers[c].key] == Entry(response.value, |s.log|, expiresAt)
      && t.records.Keys == TableOf(s.shared, s.callers[c].kind).records.Keys
  {
    assert CallerGood(s.callers[c], c, TableOf(s.shared, s.callers[c].kind), |s.log|);
  }

  /** The cache is used: what a fetch returned, with no clear since it was registered, is served to the next
      unforced look at the same key while it lives. */
  lemma CommittedIsServed(
    schedule: seq<Step>, c: CallerId, response: Result<Value, Failure>, expiresAt: Option<int>,
    c': CallerId, now: int, id: LoadId)
    requires
      var s := Run(schedule);
      && c in s.callers && s.callers[c].phase.Fetching? && Succeeds(s.callers[c], response)
      && s.callers[c].phase.load in TableOf(s.shared, s.callers[c].kind).records
      && TableOf(s.shared, s.callers[c].kind).records[s.callers[c].phase.load].generation == |s.log|
      && c' in s.callers && s.callers[c'].phase.Looping? && !s.callers[c'].force
      && s.callers[c'].kind == s.callers[c].kind && s.callers[c'].key == s.callers[c].key
      && (expiresAt.Some? ==> now < expiresAt.value)
      && id !in TableOf(s.shared, s.callers[c].kind).records
    ensures
      var s := Run(schedule);
      var t := Run(schedule + [Fetched(c, response, expiresAt), Look(c', now, id)]);
      c' in t.callers && t.callers[c'].phase == Done(Presented(s.callers[c'], Ok(response.value)), |s.log|)
  {
    hide Presented, Invariant, MarketOutcome, Run, DoFetched, DoLook;
    Reachable(schedule);
    var one := schedule + [Fetched(c, response, expiresAt)];
    RunSnoc(schedule, Fetched(c, response, expiresAt));
    RunSnoc(one, Look(c', now, id));
    assert schedule + [Fetched(c, response, expiresAt), Look(c', now, id)] == one + [Look(c', now, id)];
    CommitStores(Run(schedule), c, response, expiresAt);
    FetchLeavesOthers(Run(schedule), c, response, expiresAt, c');
    LookHits(Run(one), c', now, id, Entry(response.value, |Run(schedule).log|, expiresAt));
  }

  lemma FetchLeavesOthers(s: System, c: CallerId, response: Result<Value, Failure>, e: Option<int>, c': CallerId)
    requires c' in s.callers && c in s.callers && c' != c
    ensures c' in DoFetched(s, c, response, e).callers && DoFetched(s, c, response, e).callers[c'] == s.callers[c']
  {
  }

  lemma LookHits(s: System, c: CallerId, now: int, id: LoadId, e: Entry)
    requires c in s.callers && s.callers[c].phase.Looping? && !s.callers[c].force && Live(e, now)
    requires
      var t := TableOf(s.shared, s.callers[c].kind);
      s.callers[c].key in t.cache && t.cache[s.callers[c].key] == e && id !in t.records
    ensures
      var t := DoLook(s, c, now, id);
      c in t.callers && t.callers[c].phase == Done(Presented(s.callers[c], Ok(e.value)), e.began)
  {
    hide Presented;
  }
}
