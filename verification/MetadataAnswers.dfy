/**
 What a resolve is given (clob/order_metadata_cache.go, clob/builder_fee_cache.go): which of cache, joined load
 and own load each look turns to, what each of them yields, and that every value handed out was sent in a
 response about that very key.
 */
module MetadataAnswers {
  import opened Common
  import opened OrderMetadataCache
  import opened MetadataProtocol

  /** A cached entry that an unforced look at `now` may use. */
  ghost predicate Usable(t: Table, key: string, force: bool, now: int) {
    !force && key in t.cache && (t.cache[key].expiresAt.Some? ==> now < t.cache[key].expiresAt.value)
  }

  /** A look is served from the cache if and only if it is not forced and an entry is there that has not
      expired. Otherwise it waits for the load of its key that is in flight, to use its result if no clear came
      since that was registered and to look again if one did, and if there is none it fetches itself. */
  lemma LookAnswers(schedule: seq<Step>, c: CallerId, now: int, id: LoadId)
    requires c in Run(schedule).callers && Run(schedule).callers[c].phase.Looping?
    requires id !in TableOf(Run(schedule).shared, Run(schedule).callers[c].kind).records
    ensures
      var s, t := Run(schedule), Run(schedule + [Look(c, now, id)]);
      var caller := s.callers[c];
      var table := TableOf(s.shared, caller.kind);
      && c in t.callers
      && (t.callers[c].phase.Done? <==> Usable(table, caller.key, caller.force, now))
      && (t.callers[c].phase.Done? ==>
            var v := table.cache[caller.key].value;
            if caller.kind.Markets? && !Suits(v, caller.token) then t.callers[c].phase.result.Err?
            else t.callers[c].phase.result == Ok(v))
      && (t.callers[c].phase.Waiting? ==>
            && caller.key in table.inFlight && t.callers[c].phase.load == table.inFlight[caller.key]
            && t.callers[c].phase.load in table.records
            && t.callers[c].phase.joined == (table.records[t.callers[c].phase.load].generation == |s.log|))
      && (t.callers[c].phase.Fetching? <==>
            !Usable(table, caller.key, caller.force, now) && caller.key !in table.inFlight)
      && (t.callers[c].phase.Fetching? ==>
            && t.callers[c].phase.load == id && id in TableOf(t.shared, caller.kind).records
            && TableOf(t.shared, caller.kind).records[id] == Load(caller.key, c, |s.log|, None, 0))
  {
    hide Run;
    Reachable(schedule);
    RunSnoc(schedule, Look(c, now, id));
    InFlightIsRecorded(Run(schedule), Run(schedule).callers[c].kind, Run(schedule).callers[c].key);
    CachedIsTyped(Run(schedule), Run(schedule).callers[c].kind, Run(schedule).callers[c].key);
  }

  lemma CachedIsTyped(s: System, kind: Kind, key: string)
    requires Invariant(s)
    ensures key in TableOf(s.shared, kind).cache ==> Typed(kind, TableOf(s.shared, kind).cache[key].value)
  {
    assert EntriesGood(s, kind);
  }

  lemma InFlightIsRecorded(s: System, kind: Kind, key: string)
    requires Invariant(s)
    ensures s.shared.generation == |s.log|
    ensures key in TableOf(s.shared, kind).inFlight ==>
              TableOf(s.shared, kind).inFlight[key] in TableOf(s.shared, kind).records
  {
    assert TableGood(s, kind);
    if key in TableOf(s.shared, kind).inFlight {
      assert FlightGood(TableOf(s.shared, kind), key);
    }
  }

  /** A market resolve looks under the condition that was found for its token, forced or not as its caller asked,
      and counts the clears made so far as made before it. */
  lemma MarketResolveStarts(schedule: seq<Step>, c: CallerId, from: CallerId, force: bool)
    requires Found(Run(schedule), from) && c !in Run(schedule).callers
    ensures
      var s, t := Run(schedule), Run(schedule + [ResolveMarket(c, from, force)]);
      && c in t.callers
      && t.callers[c] == Caller(Markets, s.callers[from].phase.result.value.id, s.callers[from].key, force, |s.log|, Looping)
  {
    hide Run;
    RunSnoc(schedule, ResolveMarket(c, from, force));
  }

  /** A waiter that is cancelled ends with the cancellation and disturbs nothing. */
  lemma GivingUpDisturbsNothing(schedule: seq<Step>, c: CallerId)
    requires c in Run(schedule).callers && Run(schedule).callers[c].phase.Waiting?
    ensures
      var s, t := Run(schedule), Run(schedule + [GiveUp(c)]);
      && t.shared == s.shared && c in t.callers
      && t.callers[c].phase.Done? && t.callers[c].phase.result == Err(Canceled)
      && forall c' :: c' in s.callers && c' != c ==> c' in t.callers && t.callers[c'] == s.callers[c']
  {
    hide Run;
    RunSnoc(schedule, GiveUp(c));
  }

  /** A market that may be returned for a token: it lists the token, or no tokens at all. */
  predicate Suits(market: Value, token: string) {
    market.Market? && (market.tokens == {} || token in market.tokens)
  }

  /** A forced look never takes what is cached, and neither does any look once the entry has expired. */
  lemma ForcedOrExpiredIsNotServed(schedule: seq<Step>, c: CallerId, now: int, id: LoadId)
    requires c in Run(schedule).callers && Run(schedule).callers[c].phase.Looping?
    requires id !in TableOf(Run(schedule).shared, Run(schedule).callers[c].kind).records
    requires
      var s := Run(schedule);
      var caller := s.callers[c];
      var table := TableOf(s.shared, caller.kind);
      || caller.force || caller.key !in table.cache
      || (table.cache[caller.key].expiresAt.Some? && table.cache[caller.key].expiresAt.value <= now)
    ensures
      var t := Run(schedule + [Look(c, now, id)]);
      c in t.callers && (t.callers[c].phase.Waiting? || t.callers[c].phase.Fetching?)
  {
    hide Run;
    LookAnswers(schedule, c, now, id);
    RunSnoc(schedule, Look(c, now, id));
  }

  /** A waiter that wakes looks again if a clear came before it joined, or if the load was cancelled while the
      waiter itself was not; otherwise it ends with the outcome of the load, except that a market which lists
      only other tokens is an error. */
  lemma WakeAnswers(schedule: seq<Step>, c: CallerId, alive: bool)
    requires c in Run(schedule).callers && Run(schedule).callers[c].phase.Waiting?
    ensures
      var s, t := Run(schedule), Run(schedule + [Wake(c, alive)]);
      var caller := s.callers[c];
      var records := TableOf(s.shared, caller.kind).records;
      && c in t.callers && caller.phase.load in records
      && var outcome := records[caller.phase.load].outcome;
         && (outcome.None? ==> t.callers[c] == caller)
         && (outcome.Some? && (!caller.phase.joined || (alive && outcome.value == Err(Canceled))) ==>
               t.callers[c].phase == Looping)
         && (outcome.Some? && caller.phase.joined && !(alive && outcome.value == Err(Canceled)) ==>
               && t.callers[c].phase.Done?
               && (caller.kind.Markets? && outcome.value.Ok? && !Suits(outcome.value.value, caller.token) ==>
                     t.callers[c].phase.result.Err?)
               && (!(caller.kind.Markets? && outcome.value.Ok? && !Suits(outcome.value.value, caller.token)) ==>
                     t.callers[c].phase.result == outcome.value))
  {
    hide Run;
    Reachable(schedule);
    RunSnoc(schedule, Wake(c, alive));
    WaitedIsTyped(Run(schedule), c);
  }

  lemma WaitedIsTyped(s: System, c: CallerId)
    requires Invariant(s) && c in s.callers && s.callers[c].phase.Waiting?
    ensures
      var t := TableOf(s.shared, s.callers[c].kind);
      && s.callers[c].phase.load in t.records
      && (t.records[s.callers[c].phase.load].outcome.Some? && t.records[s.callers[c].phase.load].outcome.value.Ok? ==>
            Typed(s.callers[c].kind, t.records[s.callers[c].phase.load].outcome.value.value))
  {
    var kind := s.callers[c].kind;
    assert CallerGood(s.callers[c], c, TableOf(s.shared, kind), |s.log|);
    assert TableGood(s, kind);
    assert RecordGood(s, kind, s.callers[c].phase.load);
  }

  /** A response that the fetching caller can use: of the kind it asked for, a named condition, a market that
      suits its token. */
  predicate Serves(caller: Caller, v: Value) {
    match caller.kind
    case Conditions => v.Condition? && v.id != ""
    case Markets => Suits(v, caller.token)
    case Fees => v.Fee?
  }

  /** The end of a fetch: a response that serves its caller becomes the caller's result and the outcome of its
      load, whatever was cleared meanwhile; any other becomes an error for both. */
  lemma FetchAnswers(schedule: seq<Step>, c: CallerId, response: Result<Value, Failure>, expiresAt: Option<int>)
    requires c in Run(schedule).callers && Run(schedule).callers[c].phase.Fetching?
    requires response.Ok? ==>
               Serves(Run(schedule).callers[c], response.value)
               || (Run(schedule).callers[c].kind.Markets? && response.value.Market?)
               || (Run(schedule).callers[c].kind.Conditions? && response.value == Condition(""))
    ensures
      var s, t := Run(schedule), Run(schedule + [Fetched(c, response, expiresAt)]);
      var caller := s.callers[c];
      var load, records := caller.phase.load, TableOf(t.shared, caller.kind).records;
      && c in t.callers && t.callers[c].phase.Done? && load in records && records[load].outcome.Some?
      && records[load].outcome.value == t.callers[c].phase.result
      && (response.Err? ==> t.callers[c].phase.result == response)
      && (response.Ok? && Serves(caller, response.value) ==> t.callers[c].phase.result == response)
      && (response.Ok? && !Serves(caller, response.value) ==> t.callers[c].phase.result.Err?)
  {
    hide Run, Invariant;
    Reachable(schedule);
    RunSnoc(schedule, Fetched(c, response, expiresAt));
    LoadKeyIsOwn(Run(schedule), c);
  }

  /* Every value handed out came in a response about its key */

  /** Step `i` of the schedule is a response that carries `v` for `key`: the value itself, asked for under that
      key, or for a token the condition of a market that lists it. */
  ghost predicate Carries(s: System, step: Step, kind: Kind, key: string, v: Value) {
    && step.Fetched? && step.response.Ok? && step.c in s.callers && s.callers[step.c].phase.Fetching?
    && ((s.callers[step.c].kind == kind && s.callers[step.c].key == key && step.response.value == v)
        || (kind.Conditions? && s.callers[step.c].kind.Markets? && step.response.value.Market?
            && key in step.response.value.tokens && v == Condition(s.callers[step.c].key)))
  }

  ghost predicate Sent(schedule: seq<Step>, kind: Kind, key: string, v: Value) {
    exists i :: 0 <= i < |schedule| && Carries(Run(schedule[..i]), schedule[i], kind, key, v)
  }

  ghost predicate CacheSent(schedule: seq<Step>, s: System, kind: Kind) {
    forall k :: k in TableOf(s.shared, kind).cache ==> Sent(schedule, kind, k, TableOf(s.shared, kind).cache[k].value)
  }

  ghost predicate RecordsSent(schedule: seq<Step>, s: System, kind: Kind) {
    forall l :: l in TableOf(s.shared, kind).records ==>
      var rec := TableOf(s.shared, kind).records[l];
      rec.outcome.Some? && rec.outcome.value.Ok? ==> Sent(schedule, kind, rec.key, rec.outcome.value.value)
  }

  ghost predicate ResultsSent(schedule: seq<Step>, s: System) {
    forall c :: c in s.callers && s.callers[c].phase.Done? && s.callers[c].phase.result.Ok? ==>
      && Sent(schedule, s.callers[c].kind, s.callers[c].key, s.callers[c].phase.result.value)
      && (s.callers[c].kind.Markets? ==> Suits(s.callers[c].phase.result.value, s.callers[c].token))
  }

  ghost predicate AllSent(schedule: seq<Step>, s: System) {
    (forall kind: Kind :: CacheSent(schedule, s, kind) && RecordsSent(schedule, s, kind)) && ResultsSent(schedule, s)
  }

  lemma SentLater(schedule: seq<Step>, step: Step, kind: Kind, key: string, v: Value)
    requires Sent(schedule, kind, key, v) || Carries(Run(schedule), step, kind, key, v)
    ensures Sent(schedule + [step], kind, key, v)
  {
    hide Run, Carries;
    var more := schedule + [step];
    if Carries(Run(schedule), step, kind, key, v) {
      assert more[..|schedule|] == schedule && more[|schedule|] == step;
    } else {
      var i :| 0 <= i < |schedule| && Carries(Run(schedule[..i]), schedule[i], kind, key, v);
      assert more[..i] == schedule[..i] && more[i] == schedule[i];
    }
  }

  /* One step: each value it leaves was there before, for the same key, or is what the step carries */

  lemma CacheStep(s: System, step: Step, kind: Kind, k: string)
    requires Invariant(s) && k in TableOf(Do(s, step).shared, kind).cache
    ensures
      var before, after := TableOf(s.shared, kind).cache, TableOf(Do(s, step).shared, kind).cache;
      (k in before && before[k].value == after[k].value) || Carries(s, step, kind, k, after[k].value)
  {
    hide Invariant;
    if step.Fetched? {
      if CanSettle(s, step.c, step.response) {
        LoadKeyIsOwn(s, step.c);
        FetchedCacheStep(s, step.c, step.response, step.expiresAt, kind, k);
      }
    }
  }

  lemma FetchedCacheStep(s: System, c: CallerId, response: Result<Value, Failure>, e: Option<int>, kind: Kind, k: string)
    requires CanSettle(s, c, response) && k in TableOf(DoFetched(s, c, response, e).shared, kind).cache
    requires TableOf(s.shared, s.callers[c].kind).records[s.callers[c].phase.load].key == s.callers[c].key
    ensures
      var before, after := TableOf(s.shared, kind).cache, TableOf(DoFetched(s, c, response, e).shared, kind).cache;
      (k in before && before[k].value == after[k].value) || Carries(s, Fetched(c, response, e), kind, k, after[k].value)
  {
  }

  lemma RecordStep(s: System, step: Step, kind: Kind, l: LoadId)
    requires Invariant(s) && l in TableOf(Do(s, step).shared, kind).records
    requires
      var rec := TableOf(Do(s, step).shared, kind).records[l];
      rec.outcome.Some? && rec.outcome.value.Ok?
    ensures
      var before, rec := TableOf(s.shared, kind).records, TableOf(Do(s, step).shared, kind).records[l];
      (l in before && before[l] == rec) || Carries(s, step, kind, rec.key, rec.outcome.value.value)
  {
    hide Invariant, DoFetched;
    if step.Fetched? {
      FetchedRecordStep(s, step.c, step.response, step.expiresAt, kind, l);
    }
  }

  lemma FetchedRecordStep(s: System, c: CallerId, response: Result<Value, Failure>, e: Option<int>, kind: Kind, l: LoadId)
    requires Invariant(s) && l in TableOf(DoFetched(s, c, response, e).shared, kind).records
    requires
      var rec := TableOf(DoFetched(s, c, response, e).shared, kind).records[l];
      rec.outcome.Some? && rec.outcome.value.Ok?
    ensures
      var before, rec := TableOf(s.shared, kind).records, TableOf(DoFetched(s, c, response, e).shared, kind).records[l];
      (l in before && before[l] == rec) || Carries(s, Fetched(c, response, e), kind, rec.key, rec.outcome.value.value)
  {
    hide Invariant;
    if CanSettle(s, c, response) {
      LoadKeyIsOwn(s, c);
      SettledRecords(s, c, response, e, kind);
    }
  }

  /** A fetch that ends settles its own load and no other. */
  lemma SettledRecords(s: System, c: CallerId, response: Result<Value, Failure>, e: Option<int>, kind: Kind)
    requires CanSettle(s, c, response)
    ensures
      var before, after := TableOf(s.shared, kind).records, TableOf(DoFetched(s, c, response, e).shared, kind).records;
      && after.Keys == before.Keys
      && forall l :: l in before && (kind != s.callers[c].kind || l != s.callers[c].phase.load) ==> after[l] == before[l]
  {
    hide Settling, SettlingMarket;
    var caller := s.callers[c];
    if caller.kind.Markets? {
      var (market, err) := MarketOutcome(caller.token, response);
      MarketSettles(s.shared, caller.phase.load, caller.token, market, err, e);
    } else {
      LoadSettles(TableOf(s.shared, caller.kind), s.shared.generation, caller.phase.load, Outcome(caller, response), e);
    }
  }

  lemma LoadSettles(t: Table, generation: nat, load: LoadId, outcome: Result<Value, Failure>, e: Option<int>)
    requires load in t.records
    ensures
      var after := Settling(t, generation, load, outcome, e).records;
      after == t.records[load := t.records[load].(outcome := Some(outcome), closes := t.records[load].closes + 1)]
  {
  }

  lemma MarketSettles(sh: Shared, load: LoadId, token: string, market: Value, err: Option<Failure>, e: Option<int>)
    requires load in sh.markets.records && market.Market?
    ensures
      var after, rec := SettlingMarket(sh, load, token, market, err, e), sh.markets.records[load];
      && after.conditions.records == sh.conditions.records && after.fees == sh.fees
      && after.markets.records
         == sh.markets.records[load := rec.(outcome := Some(ToResult((market, err))), closes := rec.closes + 1)]
  {
  }

  /** Where the result of a caller comes from in one step. */
  ghost predicate Supplied(s: System, step: Step, caller: Caller, v: Value) {
    var t := TableOf(s.shared, caller.kind);
    || (caller.key in t.cache && t.cache[caller.key].value == v)
    || (exists l :: l in t.records && t.records[l].key == caller.key && t.records[l].outcome == Some(Ok(v)))
    || Carries(s, step, caller.kind, caller.key, v)
  }

  lemma ResultStep(s: System, step: Step, c: CallerId)
    requires Invariant(s) && c in Do(s, step).callers && Do(s, step).callers[c].phase.Done?
    requires Do(s, step).callers[c].phase.result.Ok?
    ensures
      var caller := Do(s, step).callers[c];
      || (c in s.callers && s.callers[c] == caller)
      || (Supplied(s, step, caller, caller.phase.result.value)
          && (caller.kind.Markets? ==> Suits(caller.phase.result.value, caller.token)))
  {
    hide Invariant;
    match step
    case Look(c', now, id) =>
      if c' in s.callers {
        CachedIsTyped(s, s.callers[c'].kind, s.callers[c'].key);
      }
    case Wake(c', alive) =>
      if c' in s.callers && s.callers[c'].phase.Waiting? {
        WaitedIsTyped(s, c');
        WaitedKeyIsOwn(s, c');
      }
    case Fetched(c', response, e) =>
      if CanSettle(s, c', response) {
        LoadKeyIsOwn(s, c');
      }
    case _ =>
  }

  lemma WaitedKeyIsOwn(s: System, c: CallerId)
    requires Invariant(s) && c in s.callers && s.callers[c].phase.Waiting?
    ensures
      var t := TableOf(s.shared, s.callers[c].kind);
      s.callers[c].phase.load in t.records && t.records[s.callers[c].phase.load].key == s.callers[c].key
  {
    assert CallerGood(s.callers[c], c, TableOf(s.shared, s.callers[c].kind), |s.log|);
  }

  /* Every run */

  lemma {:induction false} RunSends(schedule: seq<Step>)
    ensures AllSent(schedule, Run(schedule))
  {
    hide Do, Invariant, Carries, Supplied;
    if schedule != [] {
      var init, step := schedule[..|schedule| - 1], schedule[|schedule| - 1];
      RunSends(init);
      Reachable(init);
      assert schedule == init + [step];
      var s, t := Run(init), Run(schedule);
      forall kind: Kind
        ensures CacheSent(schedule, t, kind) && RecordsSent(schedule, t, kind)
      {
        CacheSends(init, step, kind);
        RecordsSend(init, step, kind);
      }
      ResultsSend(init, step);
    }
  }

  lemma CacheSends(init: seq<Step>, step: Step, kind: Kind)
    requires AllSent(init, Run(init)) && Invariant(Run(init))
    ensures CacheSent(init + [step], Do(Run(init), step), kind)
  {
    hide Run, Do, Invariant, Carries, Sent;
    var s, t := Run(init), Do(Run(init), step);
    assert CacheSent(init, s, kind);
    forall k | k in TableOf(t.shared, kind).cache
      ensures Sent(init + [step], kind, k, TableOf(t.shared, kind).cache[k].value)
    {
      CacheStep(s, step, kind, k);
      SentLater(init, step, kind, k, TableOf(t.shared, kind).cache[k].value);
    }
  }

  lemma RecordsSend(init: seq<Step>, step: Step, kind: Kind)
    requires AllSent(init, Run(init)) && Invariant(Run(init))
    ensures RecordsSent(init + [step], Do(Run(init), step), kind)
  {
    hide Run, Do, Invariant, Carries, Sent;
    var s, t := Run(init), Do(Run(init), step);
    assert RecordsSent(init, s, kind);
    forall l | l in TableOf(t.shared, kind).records && TableOf(t.shared, kind).records[l].outcome.Some?
               && TableOf(t.shared, kind).records[l].outcome.value.Ok?
      ensures Sent(init + [step], kind, TableOf(t.shared, kind).records[l].key,
                   TableOf(t.shared, kind).records[l].outcome.value.value)
    {
      RecordStep(s, step, kind, l);
      SentLater(init, step, kind, TableOf(t.shared, kind).records[l].key,
                TableOf(t.shared, kind).records[l].outcome.value.value);
    }
  }

  lemma ResultsSend(init: seq<Step>, step: Step)
    requires AllSent(init, Run(init)) && Invariant(Run(init))
    ensures ResultsSent(init + [step], Do(Run(init), step))
  {
    hide Run, Do, Invariant, Carries, Sent;
    var s, t := Run(init), Do(Run(init), step);
    forall c | c in t.callers && t.callers[c].phase.Done? && t.callers[c].phase.result.Ok?
      ensures Sent(init + [step], t.callers[c].kind, t.callers[c].key, t.callers[c].phase.result.value)
      ensures t.callers[c].kind.Markets? ==> Suits(t.callers[c].phase.result.value, t.callers[c].token)
    {
      var caller := t.callers[c];
      ResultStep(s, step, c);
      assert CacheSent(init, s, caller.kind) && RecordsSent(init, s, caller.kind);
      SentLater(init, step, caller.kind, caller.key, caller.phase.result.value);
    }
  }

  /** Whatever is served, from the cache, a joined load or an own load, was sent in a response: the value itself,
      asked for under the caller's own key, or for a token the condition of a market whose response lists it.
      A market that is served lists the caller's token or no tokens. */
  lemma ServedWasSent(schedule: seq<Step>, c: CallerId)
    requires c in Run(schedule).callers && Run(schedule).callers[c].phase.Done?
    requires Run(schedule).callers[c].phase.result.Ok?
    ensures
      var caller := Run(schedule).callers[c];
      && Sent(schedule, caller.kind, caller.key, caller.phase.result.value)
      && (caller.kind.Markets? ==> Suits(caller.phase.result.value, caller.token))
  {
    hide Run, Sent;
    RunSends(schedule);
  }
}
