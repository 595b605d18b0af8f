/**
 Clearing tick sizes, of one token or all, beside metadata commits (clob/client.go, clob/order_metadata_cache.go).
 A clear takes three locks one after the other: it drops the tick entries, then the neg-risk entries, then the
 metadata. Clearing a neg-risk flag alone also drops metadata. A metadata commit holds the metadata lock and
 meanwhile sets the ticks of its tokens one by one.
 A step that is not enabled changes nothing; the time of a step is its position in the schedule.
 */
module TickClear {
  import opened Common
  import opened GuardedRegions

  type FetchId = nat
  type LoadId = nat
  type ClearId = nat

  /** Where a tick came from, and when it was asked for. */
  datatype Source = FromCaller | FromFetch(asked: nat) | FromLoad(load: LoadId, asked: nat)

  datatype Entry = Entry(tick: string, source: Source, written: nat)

  /** A tick-size fetch outside the metadata, guarded by the generation of the tick cache. */
  datatype Fetch = Fetch(token: string, generation: nat, asked: nat, open: bool)

  datatype LoadPhase = Loading | Writing(tick: string, todo: set<string>) | Settled

  datatype Load = Load(generation: nat, asked: nat, phase: LoadPhase)

  datatype ClearPhase = TickCleared | RiskCleared | Returned(last: nat)

  datatype Scope = One(token: string) | Every

  datatype Clear = Clear(scope: Scope, first: nat, phase: ClearPhase)

  predicate Covers(scope: Scope, token: string) {
    scope == Every || scope == One(token)
  }

  datatype System = System(
    now: nat, ticks: Fields<Entry>, generation: nat, lock: Option<LoadId>,
    fetches: map<FetchId, Fetch>, loads: map<LoadId, Load>, clears: map<ClearId, Clear>)

  const START := System(0, Fields(map[], map[], 0), 0, None, map[], map[], map[])

  datatype Step =
    | SetTick(token: string, tick: string)
    | BeginFetch(f: FetchId, token: string)
    | EndFetch(f: FetchId, tick: string)
    | Register(l: LoadId)
    | BeginCommit(l: LoadId, tick: string, tokens: set<string>)
    | WriteOne(l: LoadId, token: string)
    | EndCommit(l: LoadId)
    | ClearFirst(k: ClearId, scope: Scope)
    | ClearSecond(k: ClearId)
    | ClearLast(k: ClearId)
    | ClearRisk

  predicate CanStore(s: System, f: FetchId) {
    f in s.fetches && s.fetches[f].open && s.fetches[f].generation == s.ticks.generation
  }

  predicate CanWrite(s: System, l: LoadId, token: string) {
    s.lock == Some(l) && l in s.loads && s.loads[l].phase.Writing? && token in s.loads[l].phase.todo
  }

  function DoEndFetch(s: System, f: FetchId, tick: string): System {
    if f in s.fetches && s.fetches[f].open then
      var fetch := s.fetches[f];
      s.(ticks := Committing(s.ticks, fetch.token, Entry(tick, FromFetch(fetch.asked), s.now), fetch.generation, s.now),
         fetches := s.fetches[f := fetch.(open := false)])
    else s
  }

  /** The metadata lock is taken; a load of an older generation commits nothing. */
  function DoBeginCommit(s: System, l: LoadId, tick: string, tokens: set<string>): System {
    if s.lock.None? && l in s.loads && s.loads[l].phase.Loading? then
      if s.loads[l].generation == s.generation then
        s.(lock := Some(l), loads := s.loads[l := s.loads[l].(phase := Writing(tick, tokens))])
      else s.(loads := s.loads[l := s.loads[l].(phase := Settled)])
    else s
  }

  function DoWriteOne(s: System, l: LoadId, token: string): System {
    if CanWrite(s, l, token) then
      var load := s.loads[l];
      s.(ticks := Setting(s.ticks, token, Entry(load.phase.tick, FromLoad(l, load.asked), s.now), s.now),
         loads := s.loads[l := load.(phase := load.phase.(todo := load.phase.todo - {token}))])
    else s
  }

  function DoEndCommit(s: System, l: LoadId): System {
    if s.lock == Some(l) && l in s.loads && s.loads[l].phase.Writing? && s.loads[l].phase.todo == {} then
      s.(lock := None, loads := s.loads[l := s.loads[l].(phase := Settled)])
    else s
  }

  function DoClearFirst(s: System, k: ClearId, scope: Scope): System {
    if k in s.clears then s
    else
      s.(ticks := match scope case One(token) => Clearing(s.ticks, token) case Every => ClearingAll(s.ticks),
         clears := s.clears[k := Clear(scope, s.now, TickCleared)])
  }

  function DoClearLast(s: System, k: ClearId): System {
    if k in s.clears && s.clears[k].phase.RiskCleared? && s.lock.None? then
      s.(generation := s.generation + 1, clears := s.clears[k := s.clears[k].(phase := Returned(s.now))])
    else s
  }

  function Act(s: System, step: Step): System {
    match step
    case SetTick(token, tick) => s.(ticks := Setting(s.ticks, token, Entry(tick, FromCaller, s.now), s.now))
    case BeginFetch(f, token) =>
      if f in s.fetches then s else s.(fetches := s.fetches[f := Fetch(token, s.ticks.generation, s.now, true)])
    case EndFetch(f, tick) => DoEndFetch(s, f, tick)
    case Register(l) =>
      if l in s.loads || s.lock.Some? then s else s.(loads := s.loads[l := Load(s.generation, s.now, Loading)])
    case BeginCommit(l, tick, tokens) => DoBeginCommit(s, l, tick, tokens)
    case WriteOne(l, token) => DoWriteOne(s, l, token)
    case EndCommit(l) => DoEndCommit(s, l)
    case ClearFirst(k, scope) => DoClearFirst(s, k, scope)
    case ClearSecond(k) =>
      if k in s.clears && s.clears[k].phase.TickCleared?
      then s.(clears := s.clears[k := s.clears[k].(phase := RiskCleared)]) else s
    case ClearLast(k) => DoClearLast(s, k)
    case ClearRisk => if s.lock.None? then s.(generation := s.generation + 1) else s
  }

  function Do(s: System, step: Step): System {
    Act(s, step).(now := s.now + 1)
  }

  function Run(schedule: seq<Step>): System {
    if schedule == [] then START else Do(Run(schedule[..|schedule| - 1]), schedule[|schedule| - 1])
  }

  lemma RunSnoc(schedule: seq<Step>, step: Step)
    ensures Run(schedule + [step]) == Do(Run(schedule), step)
  {
    assert (schedule + [step])[..|schedule|] == schedule;
  }

  /* What a clear can leave behind */

  predicate AskedBefore(source: Source, time: nat) {
    !source.FromCaller? && source.asked < time
  }

  /** The token has a tick that was asked for before the clear began. */
  predicate Stale(s: System, k: ClearId, token: string)
    requires k in s.clears
  {
    token in s.ticks.cache && AskedBefore(s.ticks.cache[token].source, s.clears[k].first)
  }

  /** A fetch asked for before a clear is of an older generation than the tick cache. */
  ghost predicate FetchesOutdated(s: System, c: Clear) {
    forall f :: f in s.fetches && s.fetches[f].asked < c.first ==> s.fetches[f].generation < s.ticks.generation
  }

  /** Once the clear has returned, a load asked for before it neither writes nor can begin to. */
  ghost predicate LoadsOutdated(s: System, c: Clear) {
    c.phase.Returned? ==>
      forall l :: l in s.loads && s.loads[l].asked < c.first ==>
        !s.loads[l].phase.Writing? && (s.loads[l].phase.Loading? ==> s.loads[l].generation < s.generation)
  }

  /** What stands for a covered token was written after the clear began; if it was asked for before, a load
      wrote it before the clear returned. */
  ghost predicate EntryGood(s: System, c: Clear, token: string) {
    Covers(c.scope, token) && token in s.ticks.cache ==>
      var e := s.ticks.cache[token];
      && c.first < e.written
      && (AskedBefore(e.source, c.first) ==> e.source.FromLoad? && (c.phase.Returned? ==> e.written < c.phase.last))
  }

  ghost predicate ClearGood(s: System, c: Clear) {
    && c.first < s.now && (c.phase.Returned? ==> c.first < c.phase.last < s.now)
    && FetchesOutdated(s, c) && LoadsOutdated(s, c) && forall token :: EntryGood(s, c, token)
  }

  ghost predicate FetchesGood(s: System) {
    forall f :: f in s.fetches ==> s.fetches[f].generation <= s.ticks.generation && s.fetches[f].asked < s.now
  }

  ghost predicate LoadsGood(s: System) {
    forall l :: l in s.loads ==>
      && s.loads[l].generation <= s.generation && s.loads[l].asked < s.now
      && (s.loads[l].phase.Writing? ==> s.lock == Some(l))
  }

  ghost predicate EntriesGood(s: System) {
    forall token :: token in s.ticks.cache ==> s.ticks.cache[token].written < s.now
  }

  ghost predicate Basic(s: System) {
    FetchesGood(s) && LoadsGood(s) && EntriesGood(s)
  }

  ghost predicate Invariant(s: System) {
    Basic(s) && forall k :: k in s.clears ==> ClearGood(s, s.clears[k])
  }

  lemma BasicKeeps(s: System, step: Step)
    requires Basic(s)
    ensures Basic(Do(s, step))
  {
    hide Do;
    KeepsFetches(s, step);
    KeepsLoads(s, step);
    KeepsEntries(s, step);
  }

  lemma KeepsFetches(s: System, step: Step)
    requires FetchesGood(s)
    ensures FetchesGood(Do(s, step))
  {
  }

  lemma KeepsLoads(s: System, step: Step)
    requires LoadsGood(s)
    ensures LoadsGood(Do(s, step))
  {
  }

  lemma KeepsEntries(s: System, step: Step)
    requires EntriesGood(s)
    ensures EntriesGood(Do(s, step))
  {
  }

  lemma FetchesKeep(s: System, step: Step, k: ClearId)
    requires Basic(s) && k in Do(s, step).clears && (k in s.clears ==> ClearGood(s, s.clears[k]))
    ensures FetchesOutdated(Do(s, step), Do(s, step).clears[k])
  {
  }

  lemma LoadsKeep(s: System, step: Step, k: ClearId)
    requires Basic(s) && k in Do(s, step).clears && (k in s.clears ==> ClearGood(s, s.clears[k]))
    ensures LoadsOutdated(Do(s, step), Do(s, step).clears[k])
  {
  }

  lemma EntryKeeps(s: System, step: Step, k: ClearId, token: string)
    requires Basic(s) && k in Do(s, step).clears && (k in s.clears ==> ClearGood(s, s.clears[k]))
    ensures EntryGood(Do(s, step), Do(s, step).clears[k], token)
  {
    hide Do, Touches, FetchesOutdated, LoadsOutdated;
    ClearMoves(s, step, k);
    if k in s.clears {
      assert EntryGood(s, s.clears[k], token);
    }
    if Touches(s, step, token) {
      TouchedIsGood(s, step, k, token);
    } else {
      Untouched(s, step, token);
      if k !in s.clears && Covers(Do(s, step).clears[k].scope, token) {
        UncoveredAtFirst(s, step, k, token);
      }
    }
  }

  /** A clear that begins touches every token it covers. */
  lemma UncoveredAtFirst(s: System, step: Step, k: ClearId, token: string)
    requires k in Do(s, step).clears && k !in s.clears && Covers(Do(s, step).clears[k].scope, token)
    ensures Touches(s, step, token) && token !in Do(s, step).ticks.cache
  {
  }

  /** What is written for a covered token now was asked for before the clear only if a load wrote it, and then
      the clear has not returned. */
  lemma TouchedIsGood(s: System, step: Step, k: ClearId, token: string)
    requires Basic(s) && k in Do(s, step).clears && (k in s.clears ==> ClearGood(s, s.clears[k]))
    requires Touches(s, step, token)
    ensures EntryGood(Do(s, step), Do(s, step).clears[k], token)
  {
  }

  lemma StepKeeps(s: System, step: Step)
    requires Invariant(s)
    ensures Invariant(Do(s, step))
  {
    hide Do, Basic, FetchesOutdated, LoadsOutdated, EntryGood;
    BasicKeeps(s, step);
    forall k | k in Do(s, step).clears
      ensures ClearGood(Do(s, step), Do(s, step).clears[k])
    {
      FetchesKeep(s, step, k);
      LoadsKeep(s, step, k);
      forall token
        ensures EntryGood(Do(s, step), Do(s, step).clears[k], token)
      {
        EntryKeeps(s, step, k, token);
      }
      TimesKeep(s, step, k);
    }
  }

  lemma TimesKeep(s: System, step: Step, k: ClearId)
    requires k in Do(s, step).clears && (k in s.clears ==> ClearGood(s, s.clears[k]))
    ensures
      var c := Do(s, step).clears[k];
      && Do(s, step).now == s.now + 1
      && c.first < s.now + 1 && (c.phase.Returned? ==> c.first < c.phase.last < s.now + 1)
  {
  }

  lemma {:induction false} Reachable(schedule: seq<Step>)
    ensures Invariant(Run(schedule)) && Run(schedule).now == |schedule|
  {
    if schedule != [] {
      Reachable(schedule[..|schedule| - 1]);
      StepKeeps(Run(schedule[..|schedule| - 1]), schedule[|schedule| - 1]);
    }
  }

  /* Which steps change the tick of a token */

  predicate Touches(s: System, step: Step, token: string) {
    match step
    case SetTick(t, _) => t == token
    case EndFetch(f, _) => CanStore(s, f) && s.fetches[f].token == token
    case WriteOne(l, t) => t == token && CanWrite(s, l, t)
    case ClearFirst(k, scope) => Covers(scope, token) && k !in s.clears
    case _ => false
  }

  lemma Untouched(s: System, step: Step, token: string)
    requires !Touches(s, step, token)
    ensures token in Do(s, step).ticks.cache <==> token in s.ticks.cache
    ensures token in s.ticks.cache ==> Do(s, step).ticks.cache[token] == s.ticks.cache[token]
  {
  }

  lemma Touched(s: System, step: Step, token: string)
    requires Touches(s, step, token) && token in Do(s, step).ticks.cache
    ensures
      var e := Do(s, step).ticks.cache[token];
      && e.written == s.now
      && (e.source.FromLoad? ==>
            step == WriteOne(e.source.load, token) && CanWrite(s, e.source.load, token)
            && s.loads[e.source.load].asked == e.source.asked)
  {
  }

  /** From position `i` on, no step of the schedule touches the tick of the token. */
  ghost predicate Quiet(schedule: seq<Step>, i: nat, token: string) {
    forall j :: i <= j < |schedule| ==> !Touches(Run(schedule[..j]), schedule[j], token)
  }

  lemma QuietSnoc(schedule: seq<Step>, i: nat, token: string)
    requires schedule != [] && i < |schedule|
    ensures
      var init, last := schedule[..|schedule| - 1], schedule[|schedule| - 1];
      Quiet(schedule, i, token) <==> Quiet(init, i, token) && !Touches(Run(init), last, token)
  {
    hide Run, Touches;
    var init, last := schedule[..|schedule| - 1], schedule[|schedule| - 1];
    assert forall j :: 0 <= j < |init| ==> init[..j] == schedule[..j] && init[j] == schedule[j];
    if Quiet(schedule, i, token) {
      forall j | i <= j < |init|
        ensures !Touches(Run(init[..j]), init[j], token)
      {
        assert !Touches(Run(schedule[..j]), schedule[j], token);
      }
    }
    if Quiet(init, i, token) && !Touches(Run(init), last, token) {
      forall j | i <= j < |schedule|
        ensures !Touches(Run(schedule[..j]), schedule[j], token)
      {
        if j < |init| {
          assert !Touches(Run(init[..j]), init[j], token);
        }
      }
    }
  }

  /** An entry was written at the position it records, and nothing touched its token since. */
  ghost predicate WrittenAt(schedule: seq<Step>, token: string, e: Entry) {
    && e.written < |schedule| && Quiet(schedule, e.written + 1, token)
    && (e.source.FromLoad? ==>
          var p := Run(schedule[..e.written]);
          && schedule[e.written] == WriteOne(e.source.load, token) && CanWrite(p, e.source.load, token)
          && p.loads[e.source.load].asked == e.source.asked)
  }

  lemma {:induction false} Provenance(schedule: seq<Step>, token: string)
    requires token in Run(schedule).ticks.cache
    ensures WrittenAt(schedule, token, Run(schedule).ticks.cache[token])
  {
    hide Do, Touches, CanWrite;
    if schedule == [] {
    } else {
      var n := |schedule| - 1;
      var init, last := schedule[..n], schedule[n];
      Reachable(init);
      if Touches(Run(init), last, token) {
        Touched(Run(init), last, token);
      } else {
        Untouched(Run(init), last, token);
        Provenance(init, token);
        var w := Run(init).ticks.cache[token].written;
        assert init[..w] == schedule[..w];
        QuietSnoc(schedule, w + 1, token) by { assert w + 1 < |schedule|; }
      }
    }
  }

  /** While nothing touches its token, an entry stays. */
  lemma {:induction false} QuietKeeps(schedule: seq<Step>, i: nat, token: string)
    requires i <= |schedule| && Quiet(schedule, i, token) && token in Run(schedule[..i]).ticks.cache
    ensures token in Run(schedule).ticks.cache
    ensures Run(schedule).ticks.cache[token] == Run(schedule[..i]).ticks.cache[token]
  {
    hide Do, Touches;
    if i == |schedule| {
      assert schedule[..i] == schedule;
    } else {
      var init, last := schedule[..|schedule| - 1], schedule[|schedule| - 1];
      QuietSnoc(schedule, i, token);
      assert init[..i] == schedule[..i];
      QuietKeeps(init, i, token);
      Untouched(Run(init), last, token);
    }
  }

  /** The times of a clear and of a load are the positions of their steps. */
  lemma {:induction false} Positions(schedule: seq<Step>)
    ensures forall k :: k in Run(schedule).clears ==> ClearAt(schedule, k, Run(schedule).clears[k])
    ensures forall l :: l in Run(schedule).loads ==> LoadAt(schedule, l, Run(schedule).loads[l].asked)
  {
    hide Do;
    if schedule != [] {
      var init, last := schedule[..|schedule| - 1], schedule[|schedule| - 1];
      Positions(init);
      Reachable(init);
      forall k | k in Run(schedule).clears
        ensures ClearAt(schedule, k, Run(schedule).clears[k])
      {
        ClearMoves(Run(init), last, k);
        assert k in Run(init).clears ==> ClearAt(init, k, Run(init).clears[k]);
      }
      forall l | l in Run(schedule).loads
        ensures LoadAt(schedule, l, Run(schedule).loads[l].asked)
      {
        LoadMoves(Run(init), last, l);
        assert l in Run(init).loads ==> LoadAt(init, l, Run(init).loads[l].asked);
      }
    }
  }

  ghost predicate ClearAt(schedule: seq<Step>, k: ClearId, c: Clear) {
    && c.first < |schedule| && schedule[c.first] == ClearFirst(k, c.scope)
    && (c.phase.Returned? ==> c.phase.last < |schedule| && schedule[c.phase.last] == ClearLast(k))
  }

  ghost predicate LoadAt(schedule: seq<Step>, l: LoadId, asked: nat) {
    asked < |schedule| && schedule[asked] == Register(l)
  }

  lemma ClearMoves(s: System, step: Step, k: ClearId)
    requires k in Do(s, step).clears
    ensures
      var c := Do(s, step).clears[k];
      && (k !in s.clears ==> step == ClearFirst(k, c.scope) && c.first == s.now && !c.phase.Returned?)
      && (k in s.clears ==>
            && c.scope == s.clears[k].scope && c.first == s.clears[k].first
            && (c.phase == s.clears[k].phase || !c.phase.Returned? || (step == ClearLast(k) && c.phase.last == s.now)))
  {
  }

  lemma LoadMoves(s: System, step: Step, l: LoadId)
    requires l in Do(s, step).loads
    ensures l !in s.loads ==> step == Register(l) && Do(s, step).loads[l].asked == s.now
    ensures l in s.loads ==> Do(s, step).loads[l].asked == s.loads[l].asked
  {
  }

  /** Position `i` of the schedule, between the first and the last lock of the clear, is a commit of a load
      that was registered before the clear began; it sets the tick of the token, and nothing touches that since. */
  ghost predicate OldCommitBetween(schedule: seq<Step>, i: nat, l: LoadId, c: Clear, token: string) {
    && c.phase.Returned? && c.first < i < c.phase.last && i < |schedule|
    && schedule[i] == WriteOne(l, token) && CanWrite(Run(schedule[..i]), l, token)
    && Run(schedule[..i]).loads[l].asked < c.first
    && Quiet(schedule, i + 1, token)
  }

  /** After a clear of one token or of all has returned, the tick of a covered token was asked for before the
      clear if and only if a load registered before it set the tick between its first and its last lock.
      Fetches of the tick alone, and loads that commit later, never bring an old tick back. */
  lemma StaleExactly(schedule: seq<Step>, k: ClearId, token: string)
    requires k in Run(schedule).clears && Run(schedule).clears[k].phase.Returned?
    requires Covers(Run(schedule).clears[k].scope, token)
    ensures Stale(Run(schedule), k, token) <==>
            exists i, l :: OldCommitBetween(schedule, i, l, Run(schedule).clears[k], token)
  {
    hide Run, Do, CanWrite, Quiet;
    Reachable(schedule);
    var s := Run(schedule);
    var c := s.clears[k];
    assert ClearGood(s, c);
    assert EntryGood(s, c, token);
    if Stale(s, k, token) {
      var e := s.ticks.cache[token];
      Provenance(schedule, token);
      assert OldCommitBetween(schedule, e.written, e.source.load, c, token);
    }
    if i, l :| OldCommitBetween(schedule, i, l, c, token) {
      OldCommitStays(schedule, i, l, c, token);
    }
  }

  lemma OldCommitStays(schedule: seq<Step>, i: nat, l: LoadId, c: Clear, token: string)
    requires OldCommitBetween(schedule, i, l, c, token)
    ensures token in Run(schedule).ticks.cache && AskedBefore(Run(schedule).ticks.cache[token].source, c.first)
  {
    hide Quiet, Run;
    var upTo := schedule[..i];
    RunSnoc(upTo, schedule[i]);
    assert schedule[..i + 1] == upTo + [schedule[i]];
    WriteSets(Run(upTo), l, token);
    QuietKeeps(schedule, i + 1, token);
  }

  lemma WriteSets(s: System, l: LoadId, token: string)
    requires CanWrite(s, l, token)
    ensures token in Do(s, WriteOne(l, token)).ticks.cache
    ensures Do(s, WriteOne(l, token)).ticks.cache[token].source == FromLoad(l, s.loads[l].asked)
  {
  }

  /* A run that leaves an old tick: the load is registered, the clear takes its first lock, the load commits,
     and the clear takes its other two. */
  const OLD_TICK: seq<Step> := [
    Register(0), ClearFirst(0, One("t")), BeginCommit(0, "0.01", {"t"}), WriteOne(0, "t"), EndCommit(0), ClearSecond(0),
    ClearLast(0)]

  lemma OldTickSurvivesClear()
    ensures
      var s := Run(OLD_TICK);
      && 0 in s.clears && s.clears[0] == Clear(One("t"), 1, Returned(6)) && Stale(s, 0, "t")
      && s.ticks.cache["t"] == Entry("0.01", FromLoad(0, 0), 3)
  {
    hide Run, Do;
    RunSeven();
    UntilCommit();
    UntilReturn(Do(Do(Do(START, OLD_TICK[0]), OLD_TICK[1]), OLD_TICK[2]));
  }

  /** The load holds the lock and has still to write; the clear has taken its first lock. */
  ghost predicate InCommit(s: System) {
    && s.now == 3 && s.lock == Some(0) && s.loads == map[0 := Load(0, 0, Writing("0.01", {"t"}))]
    && s.clears == map[0 := Clear(One("t"), 1, TickCleared)]
  }

  lemma UntilCommit()
    ensures InCommit(Do(Do(Do(START, OLD_TICK[0]), OLD_TICK[1]), OLD_TICK[2]))
  {
    var a := Do(START, OLD_TICK[0]);
    assert a.loads == map[0 := Load(0, 0, Loading)];
    var b := Do(a, OLD_TICK[1]);
    assert b.clears == map[0 := Clear(One("t"), 1, TickCleared)];
  }

  lemma UntilReturn(s: System)
    requires InCommit(s)
    ensures
      var t := Do(Do(Do(Do(s, OLD_TICK[3]), OLD_TICK[4]), OLD_TICK[5]), OLD_TICK[6]);
      && 0 in t.clears && t.clears[0] == Clear(One("t"), 1, Returned(6)) && "t" in t.ticks.cache
      && t.ticks.cache["t"] == Entry("0.01", FromLoad(0, 0), 3)
  {
    var a := Do(s, OLD_TICK[3]);
    assert a.loads[0].phase == Writing("0.01", {}) && a.ticks.cache["t"] == Entry("0.01", FromLoad(0, 0), 3);
    var b := Do(a, OLD_TICK[4]);
    assert b.lock == None && b.ticks == a.ticks && b.now == 5 && b.clears == s.clears;
    var c := Do(b, OLD_TICK[5]);
    assert c.clears[0] == Clear(One("t"), 1, RiskCleared) && c.ticks == a.ticks && c.now == 6;
  }

  lemma RunSeven()
    ensures
      var o := OLD_TICK;
      Run(o) == Do(Do(Do(Do(Do(Do(Do(START, o[0]), o[1]), o[2]), o[3]), o[4]), o[5]), o[6])
  {
    hide Do;
    var o := OLD_TICK;
    RunPrefix(o, 1);
    RunPrefix(o, 2);
    RunPrefix(o, 3);
    RunPrefix(o, 4);
    RunPrefix(o, 5);
    RunPrefix(o, 6);
    RunPrefix(o, 7);
    assert o[..7] == o && o[..0] == [];
  }

  lemma RunPrefix(schedule: seq<Step>, n: nat)
    requires 0 < n <= |schedule|
    ensures Run(schedule[..n]) == Do(Run(schedule[..n - 1]), schedule[n - 1])
  {
    hide Do;
    assert schedule[..n] == schedule[..n - 1] + [schedule[n - 1]];
    RunSnoc(schedule[..n - 1], schedule[n - 1]);
  }
}
