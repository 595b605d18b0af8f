/**
 The caches of tick sizes, neg-risk flags and base fees (clob/order_context.go, clob/client.go,
 clob/fee_rate_cache.go): a value that was fetched is stored only if nothing was written since its
 fetch began. Time is an integer; a lifetime of zero never expires.
 */
module GuardedRegions {
  import opened Common

  datatype Fields<V> = Fields(cache: map<string, V>, stamps: map<string, int>, generation: nat)

  function Hit<V>(f: Fields<V>, token: string, now: int, ttl: nat): Option<V> {
    if token in f.cache && token in f.stamps && (ttl == 0 || now - f.stamps[token] < ttl) then Some(f.cache[token])
    else None
  }

  function Storing<V>(f: Fields<V>, token: string, value: V, now: int): Fields<V> {
    f.(cache := f.cache[token := value], stamps := f.stamps[token := now])
  }

  function Committing<V>(f: Fields<V>, token: string, value: V, began: nat, now: int): Fields<V> {
    if began == f.generation then Storing(f, token, value, now) else f
  }

  function Setting<V>(f: Fields<V>, token: string, value: V, now: int): Fields<V> {
    Storing(f, token, value, now).(generation := f.generation + 1)
  }

  function Clearing<V>(f: Fields<V>, token: string): Fields<V> {
    Fields(f.cache - {token}, f.stamps - {token}, f.generation + 1)
  }

  function ClearingAll<V>(f: Fields<V>): Fields<V> {
    Fields(map[], map[], f.generation + 1)
  }

  class GuardedCache<V> {
    var cache: map<string, V>
    var stamps: map<string, int>
    var generation: nat

    ghost function View(): Fields<V>
      reads this
    {
      Fields(cache, stamps, generation)
    }

    ghost predicate Valid()
      reads this
    {
      cache.Keys == stamps.Keys
    }

    constructor ()
      ensures View() == Fields(map[], map[], 0) && Valid()
    {
      cache, stamps, generation := map[], map[], 0;
    }

    /** The first locked region of a resolution: the entry if it is current, and the generation. */
    method Look(token: string, now: int, ttl: nat) returns (hit: Option<V>, began: nat)
      requires Valid()
      ensures hit == Hit(View(), token, now, ttl) && began == generation
    {
      began := generation;
      if token in cache {
        var at := stamps[token];
        if ttl == 0 || now - at < ttl {
          return Some(cache[token]), began;
        }
      }
      hit := None;
    }

    /** The last locked region of a resolution that fetched. */
    method Commit(token: string, value: V, began: nat, now: int)
      requires Valid()
      modifies this`cache, this`stamps
      ensures Valid() && View() == Committing(old(View()), token, value, began, now)
    {
      if began == generation {
        cache := cache[token := value];
        stamps := stamps[token := now];
      }
    }

    method Set(token: string, value: V, now: int)
      requires Valid()
      modifies this
      ensures Valid() && View() == Setting(old(View()), token, value, now)
    {
      generation := generation + 1;
      cache := cache[token := value];
      stamps := stamps[token := now];
    }

    method Clear(token: string)
      requires Valid()
      modifies this
      ensures Valid() && View() == Clearing(old(View()), token)
    {
      generation := generation + 1;
      cache := cache - {token};
      stamps := stamps - {token};
    }

    method Invalidate()
      modifies this
      ensures Valid() && View() == ClearingAll(old(View()))
    {
      generation := generation + 1;
      cache := map[];
      stamps := map[];
    }
  }
}

/**
 Every interleaving of fetching callers with writes to one guarded cache. The log holds the writes; an
 entry's origin is the write or the fetch that stored it.
 */
module GuardedProtocol {
  import opened Common
  import opened GuardedRegions

  type Value = string
  type CallerId = nat

  datatype Write = SetTo(token: string, value: Value) | ClearOne(token: string) | ClearEvery

  datatype Origin = Written(index: nat) | Fetched(fetcher: CallerId, began: nat)

  datatype Phase = Fetching(began: nat) | Done(value: Value) | Failed

  datatype Caller = Caller(token: string, phase: Phase)

  datatype System = System(
    log: seq<Write>, fields: Fields<Value>, origin: map<string, Origin>, callers: map<CallerId, Caller>)

  datatype Step =
    | Resolve(c: CallerId, token: string, now: int)
    | FetchReturns(c: CallerId, response: Result<Value, string>, now: int)
    | Writes(write: Write, now: int)

  function DoResolve(s: System, c: CallerId, token: string, now: int, ttl: nat): System {
    if c in s.callers then s
    else
      var hit := Hit(s.fields, token, now, ttl);
      s.(callers := s.callers[c := Caller(token, if hit.Some? then Done(hit.value) else Fetching(s.fields.generation))])
  }

  function DoFetchReturns(s: System, c: CallerId, response: Result<Value, string>, now: int): System {
    if c in s.callers && s.callers[c].phase.Fetching? then
      var token, began := s.callers[c].token, s.callers[c].phase.began;
      match response
      case Err(_) => s.(callers := s.callers[c := Caller(token, Failed)])
      case Ok(value) =>
        s.(callers := s.callers[c := Caller(token, Done(value))],
           fields := Committing(s.fields, token, value, began, now),
           origin := if began == s.fields.generation then s.origin[token := Fetched(c, began)] else s.origin)
    else s
  }

  function DoWrite(s: System, write: Write, now: int): System {
    var t := s.(log := s.log + [write]);
    match write
    case SetTo(token, value) =>
      t.(fields := Setting(s.fields, token, value, now), origin := s.origin[token := Written(|s.log|)])
    case ClearOne(token) => t.(fields := Clearing(s.fields, token), origin := s.origin - {token})
    case ClearEvery => t.(fields := ClearingAll(s.fields), origin := map[])
  }

  function Do(s: System, step: Step, ttl: nat): System {
    match step
    case Resolve(c, token, now) => DoResolve(s, c, token, now, ttl)
    case FetchReturns(c, response, now) => DoFetchReturns(s, c, response, now)
    case Writes(write, now) => DoWrite(s, write, now)
  }

  function Run(ttl: nat, schedule: seq<Step>): System {
    if schedule == [] then System([], Fields(map[], map[], 0), map[], map[])
    else Do(Run(ttl, schedule[..|schedule| - 1]), schedule[|schedule| - 1], ttl)
  }

  /* The invariant */

  predicate Touches(write: Write, token: string) {
    write.ClearEvery? || write.token == token
  }

  /** No write from index `from` on concerns the token. */
  ghost predicate Untouched(log: seq<Write>, token: string, from: nat) {
    forall i :: from <= i < |log| ==> !Touches(log[i], token)
  }

  /** What the origin of an entry says about it. */
  ghost predicate OriginGood(s: System, token: string)
    requires token in s.fields.cache && token in s.origin
  {
    match s.origin[token]
    case Written(k) =>
      k < |s.log| && s.log[k] == SetTo(token, s.fields.cache[token]) && Untouched(s.log, token, k + 1)
    case Fetched(c, began) =>
      && began <= |s.log| && Untouched(s.log, token, began)
      && c in s.callers && s.callers[c] == Caller(token, Done(s.fields.cache[token]))
  }

  /** The last write of a token, if it set a value, is still there or was replaced by a later fetch. */
  ghost predicate WriteKept(s: System, k: nat)
    requires k < |s.log|
  {
    s.log[k].SetTo? && Untouched(s.log, s.log[k].token, k + 1) ==>
      var token := s.log[k].token;
      token in s.origin && (s.origin[token] == Written(k) || (s.origin[token].Fetched? && s.origin[token].began > k))
  }

  ghost predicate Invariant(s: System) {
    && s.fields.generation == |s.log|
    && s.fields.cache.Keys == s.fields.stamps.Keys == s.origin.Keys
    && (forall token :: token in s.fields.cache ==> OriginGood(s, token))
    && (forall k :: 0 <= k < |s.log| ==> WriteKept(s, k))
    && (forall c :: c in s.callers && s.callers[c].phase.Fetching? ==> s.callers[c].phase.began <= |s.log|)
  }

  lemma ResolveKeeps(s: System, c: CallerId, token: string, now: int, ttl: nat)
    requires Invariant(s)
    ensures Invariant(DoResolve(s, c, token, now, ttl))
  {
    var t := DoResolve(s, c, token, now, ttl);
    forall x | x in t.fields.cache
      ensures OriginGood(t, x)
    {
      assert OriginGood(s, x);
    }
    forall k | 0 <= k < |t.log|
      ensures WriteKept(t, k)
    {
      assert WriteKept(s, k);
    }
  }

  lemma FetchKeeps(s: System, c: CallerId, response: Result<Value, string>, now: int)
    requires Invariant(s)
    ensures Invariant(DoFetchReturns(s, c, response, now))
  {
    var t := DoFetchReturns(s, c, response, now);
    forall x | x in t.fields.cache
      ensures OriginGood(t, x)
    {
      if x in s.fields.cache {
        assert OriginGood(s, x);
      }
    }
    forall k | 0 <= k < |t.log|
      ensures WriteKept(t, k)
    {
      assert WriteKept(s, k);
    }
  }

  lemma WriteKeeps(s: System, write: Write, now: int)
    requires Invariant(s)
    ensures Invariant(DoWrite(s, write, now))
  {
    var t := DoWrite(s, write, now);
    forall x | x in t.fields.cache
      ensures OriginGood(t, x)
    {
      OriginAfterWrite(s, write, now, x);
    }
    forall k | 0 <= k < |t.log|
      ensures WriteKept(t, k)
    {
      KeptAfterWrite(s, write, now, k);
    }
  }

  lemma OriginAfterWrite(s: System, write: Write, now: int, token: string)
    requires Invariant(s) && token in DoWrite(s, write, now).fields.cache
    ensures token in DoWrite(s, write, now).origin && OriginGood(DoWrite(s, write, now), token)
  {
    if !Touches(write, token) {
      OriginUndisturbed(s, DoWrite(s, write, now), write, token);
    }
  }

  lemma OriginUndisturbed(s: System, t: System, write: Write, token: string)
    requires token in s.fields.cache && token in s.origin && OriginGood(s, token) && !Touches(write, token)
    requires t.log == s.log + [write] && t.callers == s.callers
    requires token in t.fields.cache && t.fields.cache[token] == s.fields.cache[token]
    requires token in t.origin && t.origin[token] == s.origin[token]
    ensures OriginGood(t, token)
  {
    hide Touches;
    match s.origin[token]
    case Written(k) => UntouchedBefore(s.log, write, token, k + 1);
    case Fetched(c, began) => UntouchedBefore(s.log, write, token, began);
  }

  lemma KeptAfterWrite(s: System, write: Write, now: int, k: nat)
    requires Invariant(s) && k <= |s.log|
    ensures WriteKept(DoWrite(s, write, now), k)
  {
    if k < |s.log| {
      assert WriteKept(s, k);
      if s.log[k].SetTo? {
        UntouchedBefore(s.log, write, s.log[k].token, k + 1);
      }
    }
  }

  lemma UntouchedBefore(log: seq<Write>, write: Write, token: string, from: nat)
    requires from <= |log|
    ensures Untouched(log + [write], token, from) <==> Untouched(log, token, from) && !Touches(write, token)
  {
    var more := log + [write];
    if Untouched(more, token, from) {
      forall i | from <= i < |log|
        ensures !Touches(log[i], token)
      {
        assert !Touches(more[i], token);
      }
      assert !Touches(more[|log|], token);
    }
  }

  lemma {:induction false} Reachable(ttl: nat, schedule: seq<Step>)
    ensures Invariant(Run(ttl, schedule))
  {
    if schedule != [] {
      var s, step := Run(ttl, schedule[..|schedule| - 1]), schedule[|schedule| - 1];
      Reachable(ttl, schedule[..|schedule| - 1]);
      match step
      case Resolve(c, token, now) => ResolveKeeps(s, c, token, now, ttl);
      case FetchReturns(c, response, now) => FetchKeeps(s, c, response, now);
      case Writes(write, now) => WriteKeeps(s, write, now);
    }
  }

  /** A fetched entry holds the answer of a fetch for that token that began after every write of the token. */
  lemma FetchedIsFresh(ttl: nat, schedule: seq<Step>, token: string)
    requires token in Run(ttl, schedule).fields.cache
    ensures
      var s := Run(ttl, schedule);
      && token in s.origin
      && (s.origin[token].Fetched? ==>
            && Untouched(s.log, token, s.origin[token].began)
            && s.origin[token].fetcher in s.callers
            && s.callers[s.origin[token].fetcher] == Caller(token, Done(s.fields.cache[token])))
  {
    hide Run;
    Reachable(ttl, schedule);
    assert OriginGood(Run(ttl, schedule), token);
  }

  /** The last write of a token wins over every fetch that began before it: a set value stays, and a cleared
      token stays absent, until a fetch that began afterwards stores its answer. */
  lemma LastWriteWins(ttl: nat, schedule: seq<Step>, token: string, k: nat)
    requires k < |Run(ttl, schedule).log| && Touches(Run(ttl, schedule).log[k], token)
    requires Untouched(Run(ttl, schedule).log, token, k + 1)
    ensures
      var s := Run(ttl, schedule);
      var fetchedSince := token in s.origin && s.origin[token].Fetched? && s.origin[token].began > k;
      && (s.log[k].SetTo? && !fetchedSince ==> token in s.fields.cache && s.fields.cache[token] == s.log[k].value)
      && (!s.log[k].SetTo? && !fetchedSince ==> token !in s.fields.cache)
  {
    hide Run;
    Reachable(ttl, schedule);
    var s := Run(ttl, schedule);
    assert WriteKept(s, k);
    if token in s.fields.cache {
      assert OriginGood(s, token);
    }
  }

  lemma RunTwo(ttl: nat, schedule: seq<Step>, x: Step, y: Step)
    ensures Run(ttl, schedule + [x]) == Do(Run(ttl, schedule), x, ttl)
    ensures Run(ttl, schedule + [x, y]) == Do(Do(Run(ttl, schedule), x, ttl), y, ttl)
  {
    hide Do;
    assert (schedule + [x])[..|schedule|] == schedule;
    assert (schedule + [x, y])[..|schedule| + 1] == schedule + [x];
  }

  /** What is stored at time `at` may be served at `now`: a lifetime of zero never ends. */
  predicate Within(at: int, now: int, ttl: nat) {
    ttl == 0 || now < at + ttl
  }

  /** A fetch that returns gives its caller the value. If no write overtook it, the next resolution is served
      that value if and only if its lifetime has not passed, and fetches again if it has. */
  lemma UndisturbedFetchIsServed(
    ttl: nat, schedule: seq<Step>, c: CallerId, value: Value, at: int, c': CallerId, now: int)
    requires
      var s := Run(ttl, schedule);
      && c in s.callers && s.callers[c].phase == Fetching(|s.log|) && c' !in s.callers
    ensures
      var s := Run(ttl, schedule);
      var token := s.callers[c].token;
      var t := Run(ttl, schedule + [FetchReturns(c, Ok(value), at), Resolve(c', token, now)]);
      && c in t.callers && t.callers[c] == Caller(token, Done(value)) && c' in t.callers
      && t.callers[c'] == Caller(token, if Within(at, now, ttl) then Done(value) else Fetching(|s.log|))
  {
    hide Run;
    Reachable(ttl, schedule);
    RunTwo(ttl, schedule, FetchReturns(c, Ok(value), at), Resolve(c', Run(ttl, schedule).callers[c].token, now));
  }

  /** A fetch that a write overtook still gives its caller the value, and leaves the cache as it is. */
  lemma OvertakenFetchIsDropped(ttl: nat, schedule: seq<Step>, c: CallerId, value: Value, at: int)
    requires
      var s := Run(ttl, schedule);
      c in s.callers && s.callers[c].phase.Fetching? && s.callers[c].phase.began < |s.log|
    ensures
      var s, t := Run(ttl, schedule), Run(ttl, schedule + [FetchReturns(c, Ok(value), at)]);
      c in t.callers && t.callers[c] == Caller(s.callers[c].token, Done(value)) && t.fields == s.fields
  {
    hide Run;
    Reachable(ttl, schedule);
    RunTwo(ttl, schedule, FetchReturns(c, Ok(value), at), Resolve(c, "", at));
  }

  /** A fetch that fails gives its caller the failure and leaves the cache as it is. */
  lemma FailedFetchStoresNothing(ttl: nat, schedule: seq<Step>, c: CallerId, reason: string, at: int)
    requires c in Run(ttl, schedule).callers && Run(ttl, schedule).callers[c].phase.Fetching?
    ensures
      var s, t := Run(ttl, schedule), Run(ttl, schedule + [FetchReturns(c, Err(reason), at)]);
      c in t.callers && t.callers[c] == Caller(s.callers[c].token, Failed) && t.fields == s.fields
  {
    hide Run;
    RunTwo(ttl, schedule, FetchReturns(c, Err(reason), at), Resolve(c, "", at));
  }

  /** After a write of the token the next resolution is served the value that was set, while its lifetime lasts,
      and fetches after a clear or once the lifetime has passed. */
  lemma WriteIsServed(ttl: nat, schedule: seq<Step>, write: Write, at: int, c: CallerId, token: string, now: int)
    requires c !in Run(ttl, schedule).callers && Touches(write, token)
    ensures
      var s, t := Run(ttl, schedule), Run(ttl, schedule + [Writes(write, at), Resolve(c, token, now)]);
      && c in t.callers
      && t.callers[c] == Caller(token, if write.SetTo? && Within(at, now, ttl) then Done(write.value)
                                       else Fetching(|s.log| + 1))
  {
    hide Run;
    Reachable(ttl, schedule);
    RunTwo(ttl, schedule, Writes(write, at), Resolve(c, token, now));
  }
}
