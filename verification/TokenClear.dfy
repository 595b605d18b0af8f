/**
 What clearing one token promises (clob/order_metadata_cache.go). It is exact when the
 gateway keeps the token-to-condition mapping fixed and every market response lists its
 tokens; without the list it can miss a cached market, and the last two lemmas say when.
 */
module TokenClear {
  import opened Common
  import opened OrderMetadataCache
  import opened MetadataProtocol

  /** The condition that each token belongs to, for ever. */
  type Home = string -> string

  /** The gateway's promise about one response. */
  ghost predicate Kept(home: Home, s: System, step: Step) {
    step.Fetched? && step.c in s.callers && step.response.Ok? ==>
      var caller := s.callers[step.c];
      match step.response.value
      case Condition(id) => caller.kind.Conditions? && id != "" ==> id == home(caller.key)
      case Market(tokens, _) => caller.kind.Markets? ==> tokens != {} && forall t :: t in tokens ==> home(t) == caller.key
      case Fee(_) => true
  }

  ghost predicate Honest(home: Home, schedule: seq<Step>) {
    forall i :: 0 <= i < |schedule| ==> Kept(home, Run(schedule[..i]), schedule[i])
  }

  ghost predicate NotCleared(log: seq<Clear>, token: string, from: nat, to: nat) {
    forall i :: from <= i < to && i < |log| ==> log[i] != Token(token)
  }

  ghost predicate ConditionsLinked(home: Home, s: System) {
    && (forall t :: t in s.shared.conditions.cache ==> s.shared.conditions.cache[t].value == Condition(home(t)))
    && (forall l :: l in s.shared.conditions.records ==>
          var rec := s.shared.conditions.records[l];
          rec.outcome.Some? && rec.outcome.value.Ok? ==> rec.outcome.value.value == Condition(home(rec.key)))
  }

  /** Each listed token of a cached market maps to the market, and was not cleared since the market was fetched. */
  ghost predicate Listed(home: Home, s: System, k: string, e: Entry) {
    && e.value.Market? && e.value.tokens != {}
    && (forall t :: t in e.value.tokens ==>
          home(t) == k && t in s.shared.conditions.cache && NotCleared(s.log, t, e.began, |s.log|))
  }

  ghost predicate MarketsLinked(home: Home, s: System) {
    && (forall k :: k in s.shared.markets.cache ==> Listed(home, s, k, s.shared.markets.cache[k]))
    && (forall l :: l in s.shared.markets.records ==>
          var rec := s.shared.markets.records[l];
          rec.outcome.Some? && rec.outcome.value.Ok? && rec.outcome.value.value.Market? ==>
            rec.outcome.value.value.tokens != {})
  }

  ghost predicate CallerLinked(home: Home, log: seq<Clear>, caller: Caller) {
    && (caller.kind.Conditions? && caller.phase.Done? && caller.phase.result.Ok? ==>
          caller.phase.result.value == Condition(home(caller.key)))
    && (caller.kind.Markets? ==> caller.key == home(caller.token))
    && (caller.kind.Markets? && caller.phase.Done? && caller.phase.result.Ok? ==>
          NotCleared(log, caller.token, caller.phase.began, caller.started))
  }

  ghost predicate CallersLinked(home: Home, s: System) {
    forall c :: c in s.callers ==> CallerLinked(home, s.log, s.callers[c])
  }

  ghost predicate Linked(home: Home, s: System) {
    ConditionsLinked(home, s) && MarketsLinked(home, s) && CallersLinked(home, s)
  }

  lemma EnterLinks(home: Home, s: System, c: CallerId, kind: Kind, key: string, token: string, force: bool)
    requires Linked(home, s) && (kind.Markets? ==> key == home(token))
    ensures Linked(home, Enter(s, c, kind, key, token, force))
  {
  }

  lemma WakeLinks(home: Home, s: System, c: CallerId, alive: bool)
    requires Linked(home, s) && Invariant(s)
    ensures Linked(home, DoWake(s, c, alive)) && Linked(home, DoGiveUp(s, c))
  {
    if c in s.callers && s.callers[c].phase.Waiting? {
      assert CallerGood(s.callers[c], c, TableOf(s.shared, s.callers[c].kind), |s.log|);
    }
  }

  lemma LookLinks(home: Home, s: System, c: CallerId, now: int, id: LoadId)
    requires Linked(home, s) && Invariant(s)
    ensures Linked(home, DoLook(s, c, now, id))
  {
    var t := DoLook(s, c, now, id);
    if t != s {
      var caller := s.callers[c];
      assert CallerLinked(home, s.log, caller);
      assert CallerGood(caller, c, TableOf(s.shared, caller.kind), |s.log|);
      assert CallerLinked(home, t.log, t.callers[c]);
      assert forall k :: k in t.shared.markets.cache ==> Listed(home, s, k, t.shared.markets.cache[k]);
    }
  }

  /** A cached market that lists the token falls with it, because the token maps to that market. */
  lemma ClearDropsListed(home: Home, s: System, token: string, k: string)
    requires Linked(home, s) && Invariant(s)
    requires k in s.shared.markets.cache && s.shared.markets.cache[k].value.Market?
    requires token in s.shared.markets.cache[k].value.tokens
    ensures k !in DoInvalidate(s, Token(token)).shared.markets.cache
  {
    assert Listed(home, s, k, s.shared.markets.cache[k]);
    assert EntriesGood(s, Conditions);
    assert token in TableOf(s.shared, Conditions).cache;
  }

  lemma ClearLinks(home: Home, s: System, what: Clear)
    requires Linked(home, s) && Invariant(s)
    ensures Linked(home, DoInvalidate(s, what))
  {
    var t := DoInvalidate(s, what);
    forall k | k in s.shared.markets.cache && what.Token? && s.shared.markets.cache[k].value.Market?
               && what.token in s.shared.markets.cache[k].value.tokens
      ensures k !in t.shared.markets.cache
    {
      ClearDropsListed(home, s, what.token, k);
    }
    forall k | k in t.shared.markets.cache
      ensures Listed(home, t, k, t.shared.markets.cache[k])
    {
      assert Listed(home, s, k, s.shared.markets.cache[k]);
    }
    forall c | c in t.callers
      ensures CallerLinked(home, t.log, t.callers[c])
    {
      assert CallerLinked(home, s.log, s.callers[c]);
      assert CallerGood(s.callers[c], c, TableOf(s.shared, s.callers[c].kind), |s.log|);
    }
  }

  lemma CloseLinks(home: Home, s: System, c: CallerId, outcome: Result<Value, Failure>)
    requires Linked(home, s) && c in s.callers && s.callers[c].phase.Fetching?
    requires CallerGood(s.callers[c], c, TableOf(s.shared, s.callers[c].kind), |s.log|)
    requires outcome.Ok? && s.callers[c].kind.Conditions? ==> outcome.value == Condition(home(s.callers[c].key))
    requires outcome.Ok? && outcome.value.Market? ==> outcome.value.tokens != {}
    ensures Linked(home, Closed(s, c, outcome))
  {
    var t := Closed(s, c, outcome);
    assert CallerLinked(home, s.log, s.callers[c]);
    forall k | k in t.shared.markets.cache
      ensures Listed(home, t, k, t.shared.markets.cache[k])
    {
      assert Listed(home, s, k, s.shared.markets.cache[k]);
    }
  }

  /** New condition entries agree with the fixed mapping; no mapping is forgotten. */
  lemma ConditionEntriesLink(home: Home, s: System, cache: map<string, Entry>)
    requires Linked(home, s) && s.shared.conditions.cache.Keys <= cache.Keys
    requires forall t :: t in cache ==> cache[t].value == Condition(home(t))
    ensures Linked(home, WithCache(s, Conditions, cache))
  {
    var t := WithCache(s, Conditions, cache);
    forall k | k in t.shared.markets.cache
      ensures Listed(home, t, k, t.shared.markets.cache[k])
    {
      assert Listed(home, s, k, s.shared.markets.cache[k]);
    }
  }

  lemma MarketEntryLinks(home: Home, s: System, key: string, e: Entry)
    requires Linked(home, s) && Listed(home, s, key, e)
    ensures Linked(home, WithCache(s, Markets, s.shared.markets.cache[key := e]))
  {
    var t := WithCache(s, Markets, s.shared.markets.cache[key := e]);
    forall k | k in t.shared.markets.cache
      ensures Listed(home, t, k, t.shared.markets.cache[k])
    {
      if k != key {
        assert Listed(home, s, k, s.shared.markets.cache[k]);
      }
    }
  }

  lemma MarketFetchedLinks(home: Home, s: System, c: CallerId, response: Result<Value, Failure>, e: Option<int>)
    requires Linked(home, s) && Invariant(s) && Kept(home, s, Fetched(c, response, e))
    requires CanSettle(s, c, response) && s.callers[c].kind.Markets?
    ensures Linked(home, DoFetched(s, c, response, e))
  {
    var caller := s.callers[c];
    var (market, err) := MarketOutcome(caller.token, response);
    assert CallerGood(caller, c, s.shared.markets, |s.log|);
    EvictionIsDead(caller.token, response);
    CloseLinks(home, s, c, ToResult((market, err)));
    var closed, rec := Closed(s, c, ToResult((market, err))), s.shared.markets.records[caller.phase.load];
    if err.None? && rec.generation == s.shared.generation {
      var mapped := Mapped(closed.shared.conditions.cache, market.tokens, Entry(Condition(rec.key), |s.log|, None));
      ConditionEntriesLink(home, closed, mapped);
      var one := WithCache(closed, Conditions, mapped);
      MarketEntryLinks(home, one, rec.key, Entry(market, |s.log|, e));
      assert DoFetched(s, c, response, e)
          == WithCache(one, Markets, one.shared.markets.cache[rec.key := Entry(market, |s.log|, e)]);
    } else {
      assert DoFetched(s, c, response, e) == closed;
    }
  }

  lemma FetchedLinks(home: Home, s: System, c: CallerId, response: Result<Value, Failure>, e: Option<int>)
    requires Linked(home, s) && Invariant(s) && Kept(home, s, Fetched(c, response, e))
    ensures Linked(home, DoFetched(s, c, response, e))
  {
    if CanSettle(s, c, response) {
      var caller := s.callers[c];
      assert CallerGood(caller, c, TableOf(s.shared, caller.kind), |s.log|);
      if caller.kind.Markets? {
        MarketFetchedLinks(home, s, c, response, e);
      } else {
        var outcome := Outcome(caller, response);
        CloseLinks(home, s, c, outcome);
        var closed := Closed(s, c, outcome);
        var rec := TableOf(s.shared, caller.kind).records[caller.phase.load];
        if outcome.Ok? && rec.generation == s.shared.generation {
          var cache := TableOf(closed.shared, caller.kind).cache[rec.key := Entry(outcome.value, |s.log|, e)];
          assert DoFetched(s, c, response, e) == WithCache(closed, caller.kind, cache);
          if caller.kind.Conditions? {
            ConditionEntriesLink(home, closed, cache);
          }
        } else {
          assert DoFetched(s, c, response, e) == closed;
        }
      }
    }
  }

  lemma StepLinks(home: Home, s: System, step: Step)
    requires Linked(home, s) && Invariant(s) && Kept(home, s, step)
    ensures Linked(home, Do(s, step))
  {
    match step
    case ResolveCondition(c, token) => EnterLinks(home, s, c, Conditions, token, token, false);
    case ResolveFee(c, code) => EnterLinks(home, s, c, Fees, code, "", false);
    case ResolveMarket(c, from, force) =>
      if Found(s, from) {
        assert CallerLinked(home, s.log, s.callers[from]);
        EnterLinks(home, s, c, Markets, s.callers[from].phase.result.value.id, s.callers[from].key, force);
      }
    case Look(c, now, id) => LookLinks(home, s, c, now, id);
    case Wake(c, alive) => WakeLinks(home, s, c, alive);
    case GiveUp(c) => WakeLinks(home, s, c, true);
    case Fetched(c, response, e) => FetchedLinks(home, s, c, response, e);
    case Invalidate(what) => ClearLinks(home, s, what);
  }

  lemma {:induction false} HonestRunsLink(home: Home, schedule: seq<Step>)
    requires Honest(home, schedule)
    ensures Linked(home, Run(schedule))
  {
    if schedule != [] {
      var init, last := schedule[..|schedule| - 1], schedule[|schedule| - 1];
      assert Honest(home, init) by {
        forall i | 0 <= i < |init|
          ensures Kept(home, Run(init[..i]), init[i])
        {
          assert init[..i] == schedule[..i];
        }
      }
      assert Kept(home, Run(init), last) by {
        assert init == schedule[..|init|];
      }
      HonestRunsLink(home, init);
      Reachable(init);
      StepLinks(home, Run(init), last);
    }
  }

  /** Per-token clear. With a fixed mapping and listed tokens, a market resolve for a token that
      starts after the token was cleared only returns metadata whose fetch was registered after
      the clear. */
  lemma FreshAfterClearToken(home: Home, before: seq<Step>, token: string, after: seq<Step>, c: CallerId)
    requires Honest(home, before + [Invalidate(Token(token))] + after)
    requires
      var s := Run(before + [Invalidate(Token(token))] + after);
      && c !in Run(before).callers && c in s.callers
      && s.callers[c].kind.Markets? && s.callers[c].token == token
      && s.callers[c].phase.Done? && s.callers[c].phase.result.Ok?
    ensures Run(before + [Invalidate(Token(token))] + after).callers[c].phase.began > |Run(before).log|
  {
    hide Run, Do, Honest;
    var cleared := before + [Invalidate(Token(token))];
    ClearIsLogged(before, Token(token));
    RunExtends(cleared, after);
    HonestRunsLink(home, cleared + after);
    var s, n := Run(cleared + after), |Run(before).log|;
    assert CallerLinked(home, s.log, s.callers[c]);
    assert s.log[n] == Token(token);
  }

  /* Without the promise that responses list their tokens */

  /** Clearing a token drops a cached market exactly when the condition cache maps the token to it. */
  lemma ClearTokenDropsExactly(schedule: seq<Step>, token: string, k: string)
    requires k in Run(schedule).shared.markets.cache
    ensures
      var s := Run(schedule);
      k !in Run(schedule + [Invalidate(Token(token))]).shared.markets.cache <==>
      token in s.shared.conditions.cache && s.shared.conditions.cache[token].value == Condition(k)
  {
    Reachable(schedule);
    RunSnoc(schedule, Invalidate(Token(token)));
    assert EntriesGood(Run(schedule), Conditions);
    if token in Run(schedule).shared.conditions.cache {
      assert token in TableOf(Run(schedule).shared, Conditions).cache;
    }
  }

  /** Everything served under condition `k` to callers outside `old` was fetched at generation `n` or later. */
  ghost predicate FreshSince(s: System, k: string, n: nat, old_: set<CallerId>) {
    && n <= |s.log|
    && (k in s.shared.markets.cache ==> n <= s.shared.markets.cache[k].began)
    && (forall c :: c in s.callers && c !in old_ && s.callers[c].kind.Markets? && s.callers[c].key == k ==>
          && n <= s.callers[c].started
          && (s.callers[c].phase.Done? && s.callers[c].phase.result.Ok? ==> n <= s.callers[c].phase.began))
  }

  lemma StepStaysFresh(s: System, step: Step, k: string, n: nat, old_: set<CallerId>)
    requires Invariant(s) && FreshSince(s, k, n, old_)
    ensures FreshSince(Do(s, step), k, n, old_)
  {
    if !step.Invalidate? && step.c in s.callers {
      var caller := s.callers[step.c];
      assert CallerGood(caller, step.c, TableOf(s.shared, caller.kind), |s.log|);
      if step.Fetched? && caller.kind.Markets? && CanSettle(s, step.c, step.response) {
        EvictionIsDead(caller.token, step.response);
      }
    }
  }

  lemma {:induction false} RunStaysFresh(schedule: seq<Step>, more: seq<Step>, k: string, n: nat)
    requires FreshSince(Run(schedule), k, n, Run(schedule).callers.Keys)
    ensures FreshSince(Run(schedule + more), k, n, Run(schedule).callers.Keys)
  {
    hide Run, Do, Invariant, FreshSince;
    if more == [] {
      assert schedule + more == schedule;
    } else {
      var init := more[..|more| - 1];
      RunStaysFresh(schedule, init, k, n);
      Reachable(schedule + init);
      StepStaysFresh(Run(schedule + init), more[|more| - 1], k, n, Run(schedule).callers.Keys);
      RunSnoc(schedule + init, more[|more| - 1]);
      assert schedule + more == schedule + init + [more[|more| - 1]];
    }
  }

  /** Whatever the gateway answers: once a clear has dropped a market (or it was not cached), resolves
      under its condition that start later only return metadata fetched after the clear. */
  lemma FreshOnceDropped(before: seq<Step>, token: string, after: seq<Step>, c: CallerId)
    requires
      var s := Run(before + [Invalidate(Token(token))] + after);
      && c !in Run(before).callers && c in s.callers
      && s.callers[c].kind.Markets?
      && s.callers[c].phase.Done? && s.callers[c].phase.result.Ok?
      && (s.callers[c].key in Run(before).shared.markets.cache ==>
            && token in Run(before).shared.conditions.cache
            && Run(before).shared.conditions.cache[token].value == Condition(s.callers[c].key))
    ensures Run(before + [Invalidate(Token(token))] + after).callers[c].phase.began > |Run(before).log|
  {
    var cleared := before + [Invalidate(Token(token))];
    var s := Run(cleared + after);
    var k := s.callers[c].key;
    RunSnoc(before, Invalidate(Token(token)));
    if k in Run(before).shared.markets.cache {
      ClearTokenDropsExactly(before, token, k);
    }
    RunStaysFresh(cleared, after, k, |Run(before).log| + 1);
  }

  lemma RunThree(schedule: seq<Step>, x: Step, y: Step, z: Step)
    ensures Run(schedule + [x, y, z]) == Do(Do(Do(Run(schedule), x), y), z)
  {
    hide Run, Do;
    RunSnoc(schedule, x);
    RunSnoc(schedule + [x], y);
    RunSnoc(schedule + [x] + [y], z);
    assert schedule + [x] + [y] + [z] == schedule + [x, y, z];
  }

  /** A cached market that a clear of `token` leaves in place: the condition cache does not map the token to it. */
  ghost predicate LeftInPlace(s: System, token: string, k: string, now: int) {
    && k in s.shared.markets.cache && Live(s.shared.markets.cache[k], now)
    && !(token in s.shared.conditions.cache && s.shared.conditions.cache[token].value == Condition(k))
  }

  /** Otherwise a market resolve that starts after the clear, while the entry lives, ends with the metadata
      fetched before the clear. */
  lemma StaleOnceKept(before: seq<Step>, token: string, from: CallerId, c: CallerId, now: int, id: LoadId)
    requires
      var s := Run(before);
      && Found(s, from) && c !in s.callers && id !in s.shared.markets.records
      && LeftInPlace(s, token, s.callers[from].phase.result.value.id, now)
    ensures
      var s := Run(before);
      var entry := s.shared.markets.cache[s.callers[from].phase.result.value.id];
      var t := Run(before + [Invalidate(Token(token)), ResolveMarket(c, from, false), Look(c, now, id)]);
      && c in t.callers && t.callers[c].started == |s.log| + 1
      && t.callers[c].phase == Done(Presented(t.callers[c], Ok(entry.value)), entry.began)
      && entry.began <= |s.log|
  {
    hide Run;
    Reachable(before);
    var s := Run(before);
    RunThree(before, Invalidate(Token(token)), ResolveMarket(c, from, false), Look(c, now, id));
    ClearTokenDropsExactly(before, token, s.callers[from].phase.result.value.id);
    RunSnoc(before, Invalidate(Token(token)));
    EntryBegan(s, s.callers[from].phase.result.value.id);
  }

  /** So does a whole resolve of the token that starts after the clear, condition first, when the gateway
      names the same condition again and the market lists the token or no tokens. */
  lemma StaleResolve(
    before: seq<Step>, token: string, k: string, f: CallerId, c: CallerId, now: int, fid: LoadId, id: LoadId)
    requires
      var s := Run(before);
      && f !in s.callers && c !in s.callers && c != f
      && fid !in s.shared.conditions.records && id !in s.shared.markets.records
      && token !in s.shared.conditions.inFlight && k != ""
      && LeftInPlace(s, token, k, now)
      && (s.shared.markets.cache[k].value.Market? ==>
            s.shared.markets.cache[k].value.tokens == {} || token in s.shared.markets.cache[k].value.tokens)
    ensures
      var s := Run(before);
      var t := Run(before + [Invalidate(Token(token)), ResolveCondition(f, token), Look(f, now, fid)]
                   + [Fetched(f, Ok(Condition(k)), None), ResolveMarket(c, f, false), Look(c, now, id)]);
      && f in t.callers && t.callers[f].started == |s.log| + 1
      && c in t.callers && t.callers[c].started == |s.log| + 1 && t.callers[c].token == token
      && t.callers[c].phase == Done(Ok(s.shared.markets.cache[k].value), s.shared.markets.cache[k].began)
      && s.shared.markets.cache[k].began <= |s.log|
  {
    hide Run;
    Reachable(before);
    var s := Run(before);
    var find := before + [Invalidate(Token(token)), ResolveCondition(f, token), Look(f, now, fid)];
    RunThree(before, Invalidate(Token(token)), ResolveCondition(f, token), Look(f, now, fid));
    AfterClearFind(s, token, k, f, now, fid);
    RunThree(find, Fetched(f, Ok(Condition(k)), None), ResolveMarket(c, f, false), Look(c, now, id));
    EntryBegan(s, k);
    AfterFindServe(Run(find), token, k, f, c, now, fid, id);
  }

  lemma EntryBegan(s: System, k: string)
    requires Invariant(s) && k in s.shared.markets.cache
    ensures s.shared.markets.cache[k].began <= |s.log| && s.shared.markets.cache[k].value.Market?
  {
    assert EntriesGood(s, Markets);
    assert k in TableOf(s.shared, Markets).cache;
  }

  lemma AfterClearFind(s: System, token: string, k: string, f: CallerId, now: int, fid: LoadId)
    requires Invariant(s) && f !in s.callers && fid !in s.shared.conditions.records
    requires token !in s.shared.conditions.inFlight && LeftInPlace(s, token, k, now)
    ensures
      var t := Do(Do(Do(s, Invalidate(Token(token))), ResolveCondition(f, token)), Look(f, now, fid));
      && |t.log| == |s.log| + 1 && t.shared.generation == |t.log|
      && k in t.shared.markets.cache && t.shared.markets.cache[k] == s.shared.markets.cache[k]
      && t.shared.markets.records == s.shared.markets.records
      && t.callers == s.callers[f := Caller(Conditions, token, token, false, |t.log|, Fetching(fid))]
      && fid in t.shared.conditions.records
  {
    assert EntriesGood(s, Conditions);
    if token in s.shared.conditions.cache {
      assert token in TableOf(s.shared, Conditions).cache;
    }
  }

  lemma AfterFindServe(s: System, token: string, k: string, f: CallerId, c: CallerId, now: int, fid: LoadId, id: LoadId)
    requires k != "" && c !in s.callers && f in s.callers && id !in s.shared.markets.records
    requires s.callers[f] == Caller(Conditions, token, token, false, |s.log|, Fetching(fid))
    requires fid in s.shared.conditions.records
    requires k in s.shared.markets.cache && Live(s.shared.markets.cache[k], now)
    requires
      var v := s.shared.markets.cache[k].value;
      v.Market? && (v.tokens == {} || token in v.tokens)
    ensures
      var t := Do(Do(Do(s, Fetched(f, Ok(Condition(k)), None)), ResolveMarket(c, f, false)), Look(c, now, id));
      && f in t.callers && t.callers[f].started == |s.log|
      && c in t.callers && t.callers[c].started == |s.log| && t.callers[c].token == token
      && t.callers[c].phase == Done(Ok(s.shared.markets.cache[k].value), s.shared.markets.cache[k].began)
  {
    var a := Do(s, Fetched(f, Ok(Condition(k)), None));
    assert a.callers[f].phase == Done(Ok(Condition(k)), s.shared.conditions.records[fid].generation);
    assert a.shared.markets == s.shared.markets && a.log == s.log;
    var b := Do(a, ResolveMarket(c, f, false));
    assert b.callers[c] == Caller(Markets, k, token, false, |s.log|, Looping);
  }

  /* A run in which clearing token "t" does not take effect: the condition of "t" was found while
     another token was being cleared, so it was not cached, and the market response lists no tokens. */
  const FIND_CONDITION: seq<Step> := [
    ResolveCondition(0, "t"), Look(0, 0, 0), Invalidate(Token("x")), Fetched(0, Ok(Condition("m")), None)]
  const CACHE_MARKET: seq<Step> := [
    ResolveMarket(1, 0, false), Look(1, 0, 0), Fetched(1, Ok(Market({}, "old")), Some(1))]
  const CLEAR_AND_FIND_AGAIN: seq<Step> := [
    Invalidate(Token("t")), ResolveCondition(2, "t"), Look(2, 0, 1)]
  const REUSE: seq<Step> := [
    Fetched(2, Ok(Condition("m")), None), ResolveMarket(3, 2, false), Look(3, 0, 1)]

  lemma AfterFind()
    ensures
      var s := Run(FIND_CONDITION);
      && s.log == [Token("x")] && s.shared.generation == 1
      && s.shared.conditions.cache == map[] && s.shared.conditions.inFlight == map[]
      && s.shared.conditions.records.Keys == {0} && s.shared.markets == EMPTY_TABLE
      && s.callers == map[0 := Caller(Conditions, "t", "t", false, 0, Done(Ok(Condition("m")), 0))]
  {
    RunThree([], FIND_CONDITION[0], FIND_CONDITION[1], FIND_CONDITION[2]);
    RunSnoc(FIND_CONDITION[..3], FIND_CONDITION[3]);
    assert [] + [FIND_CONDITION[0], FIND_CONDITION[1], FIND_CONDITION[2]] == FIND_CONDITION[..3];
    assert FIND_CONDITION[..3] + [FIND_CONDITION[3]] == FIND_CONDITION;
    var a := Do(Do(START, FIND_CONDITION[0]), FIND_CONDITION[1]);
    assert a.callers[0].phase == Fetching(0);
  }

  lemma AfterCache()
    ensures
      var s := Run(FIND_CONDITION + CACHE_MARKET);
      && s.log == [Token("x")] && s.shared.generation == 1
      && s.shared.conditions == Run(FIND_CONDITION).shared.conditions
      && s.shared.markets.cache == map["m" := Entry(Market({}, "old"), 1, Some(1))]
      && s.shared.markets.records.Keys == {0}
      && s.callers.Keys == {0, 1}
  {
    AfterFind();
    RunThree(FIND_CONDITION, CACHE_MARKET[0], CACHE_MARKET[1], CACHE_MARKET[2]);
    assert CACHE_MARKET == [CACHE_MARKET[0], CACHE_MARKET[1], CACHE_MARKET[2]];
    var a := Do(Run(FIND_CONDITION), CACHE_MARKET[0]);
    assert a.callers[1] == Caller(Markets, "m", "t", false, 1, Looping);
    var b := Do(a, CACHE_MARKET[1]);
    assert b.callers[1].phase == Fetching(0);
  }

  /** The resolve that starts after the clear is served the market fetched before it. */
  lemma UnlistedMarketEscapes()
    ensures
      var s := Run(FIND_CONDITION + CACHE_MARKET + CLEAR_AND_FIND_AGAIN + REUSE);
      && Run(FIND_CONDITION + CACHE_MARKET).log == [Token("x")]
      && 2 in s.callers && s.callers[2].started == 2
      && 3 in s.callers && s.callers[3].token == "t" && s.callers[3].started == 2
      && s.callers[3].phase == Done(Ok(Market({}, "old")), 1)
  {
    hide Run, Do;
    AfterFind();
    AfterCache();
    StaleResolve(FIND_CONDITION + CACHE_MARKET, "t", "m", 2, 3, 0, 1, 1);
  }
}
