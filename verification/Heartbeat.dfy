/**
 The heartbeat lifecycle (clob/heartbeat.go): the regions that run under the heartbeat lock.
 A loop is identified by its done channel; its cancel function is identified by the same loop.
 */
module HeartbeatRegions {
  import opened Common

  type LoopId = nat

  const DEFAULT_INTERVAL := 5

  datatype Fields = Fields(
    cancel: Option<LoopId>, done: Option<LoopId>, closed: bool, id: string, interval: int)

  datatype Started = HeartbeatsClosed | HeartbeatsActive | Running(interval: int)

  function Registering(f: Fields, l: LoopId): (Fields, Started) {
    if f.closed then (f, HeartbeatsClosed)
    else if f.cancel.Some? then (f, HeartbeatsActive)
    else
      var interval := if f.interval <= 0 then DEFAULT_INTERVAL else f.interval;
      (f.(interval := interval, cancel := Some(l), done := Some(l)), Running(interval))
  }

  function Leaving(f: Fields, l: LoopId): Fields {
    if f.done == Some(l) then f.(cancel := None, done := None) else f
  }

  function Adopting(f: Fields, l: LoopId, id: string): Fields {
    if f.done == Some(l) then f.(id := id) else f
  }

  /** The loop that a stopping or closing caller waits for. */
  function Target(f: Fields): Option<(LoopId, LoopId)> {
    if f.cancel.None? || f.done.None? then None else Some((f.cancel.value, f.done.value))
  }

  class AuthenticatedClient {
    var heartbeatCancel: Option<LoopId>
    var heartbeatDone: Option<LoopId>
    var heartbeatClosed: bool
    var heartbeatID: string
    var heartbeatInterval: int

    ghost function View(): Fields
      reads this
    {
      Fields(heartbeatCancel, heartbeatDone, heartbeatClosed, heartbeatID, heartbeatInterval)
    }

    constructor (interval: int)
      ensures View() == Fields(None, None, false, "", interval)
    {
      heartbeatCancel, heartbeatDone, heartbeatClosed := None, None, false;
      heartbeatID, heartbeatInterval := "", interval;
    }

    /** The locked region of StartHeartbeats. */
    method Register(l: LoopId) returns (r: Started)
      modifies this`heartbeatCancel, this`heartbeatDone, this`heartbeatInterval
      ensures (View(), r) == Registering(old(View()), l)
      ensures r.Running? ==> r.interval > 0
    {
      if heartbeatClosed {
        return HeartbeatsClosed;
      }
      if heartbeatCancel.Some? {
        return HeartbeatsActive;
      }
      if heartbeatInterval <= 0 {
        heartbeatInterval := DEFAULT_INTERVAL;
      }
      heartbeatCancel := Some(l);
      heartbeatDone := Some(l);
      r := Running(heartbeatInterval);
    }

    /** The locked region of closeHeartbeats. */
    method BeginClose() returns (target: Option<(LoopId, LoopId)>)
      modifies this`heartbeatClosed
      ensures View() == old(View()).(closed := true)
      ensures target == Target(old(View()))
    {
      heartbeatClosed := true;
      var cancel, done := heartbeatCancel, heartbeatDone;
      if cancel.None? || done.None? {
        return None;
      }
      target := Some((cancel.value, done.value));
    }

    /** The deferred region of a loop that ends. */
    method Leave(done: LoopId)
      modifies this`heartbeatCancel, this`heartbeatDone
      ensures View() == Leaving(old(View()), done)
    {
      if heartbeatDone == Some(done) {
        heartbeatCancel := None;
        heartbeatDone := None;
      }
    }

    method AdoptHeartbeatID(done: LoopId, id: string)
      modifies this`heartbeatID
      ensures View() == Adopting(old(View()), done, id)
    {
      if heartbeatDone == Some(done) {
        heartbeatID := id;
      }
    }
  }
}

/**
 Every interleaving of starting, stopping and closing callers with the loops they start.
 */
module HeartbeatProtocol {
  import opened Common
  import opened HeartbeatRegions

  type CallerId = nat

  datatype Reply = Accepted(next: string) | Mismatch(expected: string) | Failed

  /** Where a loop stands: launched, waiting for its ticker, posting an identifier, adopting one (and then
      retrying the post or not), about to leave, or gone. */
  datatype Phase =
    | Launching
    | Idle
    | Posting(id: string, retry: bool)
    | Adopt(id: string, retry: bool)
    | Leave
    | Gone

  datatype Loop = Loop(phase: Phase, canceled: bool, closes: nat, interval: int)

  datatype Wait = Holding(cancel: LoopId, done: LoopId) | Joining(done: LoopId) | Returned(ok: bool)

  datatype Caller = Caller(closing: bool, wait: Wait)

  datatype System = System(fields: Fields, loops: map<LoopId, Loop>, callers: map<CallerId, Caller>)

  datatype Step =
    | Start(l: LoopId)
    | Launch(l: LoopId)
    | CancelParent(l: LoopId)
    | Tick(l: LoopId)
    | PostReturns(l: LoopId, reply: Reply)
    | AdoptId(l: LoopId)
    | SeeDone(l: LoopId)
    | End(l: LoopId)
    | Enter(c: CallerId, closing: bool)
    | CallCancel(c: CallerId)
    | Join(c: CallerId)
    | GiveUp(c: CallerId)

  predicate At(s: System, l: LoopId, phase: Phase) {
    l in s.loops && s.loops[l].phase == phase
  }

  function Move(s: System, l: LoopId, phase: Phase): System
    requires l in s.loops
  {
    s.(loops := s.loops[l := s.loops[l].(phase := phase)])
  }

  function DoStart(s: System, l: LoopId): System {
    if l in s.loops then s
    else
      var (f, r) := Registering(s.fields, l);
      if r.Running? then s.(fields := f, loops := s.loops[l := Loop(Launching, false, 0, r.interval)]) else s
  }

  function DoCancel(s: System, l: LoopId): System {
    if l in s.loops then s.(loops := s.loops[l := s.loops[l].(canceled := true)]) else s
  }

  function DoTick(s: System, l: LoopId): System {
    if At(s, l, Idle) then Move(s, l, Posting(s.fields.id, false)) else s
  }

  /** What follows a post: leave on an error after cancellation, adopt and retry once after a mismatch,
      adopt a named successor, otherwise wait for the next tick. */
  function AfterPost(canceled: bool, retry: bool, reply: Reply): Phase {
    match reply
    case Accepted(next) => if next == "" then Idle else Adopt(next, false)
    case Mismatch(expected) => if canceled then Leave else if retry then Idle else Adopt(expected, true)
    case Failed => if canceled then Leave else Idle
  }

  function DoPostReturns(s: System, l: LoopId, reply: Reply): System {
    if l in s.loops && s.loops[l].phase.Posting? then
      Move(s, l, AfterPost(s.loops[l].canceled, s.loops[l].phase.retry, reply))
    else s
  }

  function DoAdopt(s: System, l: LoopId): System {
    if l in s.loops && s.loops[l].phase.Adopt? then
      var id, retry := s.loops[l].phase.id, s.loops[l].phase.retry;
      Move(s, l, if retry then Posting(id, true) else Idle).(fields := Adopting(s.fields, l, id))
    else s
  }

  function DoEnd(s: System, l: LoopId): System {
    if At(s, l, Leave) then
      s.(fields := Leaving(s.fields, l),
         loops := s.loops[l := s.loops[l].(phase := Gone, closes := s.loops[l].closes + 1)])
    else s
  }

  function DoEnter(s: System, c: CallerId, closing: bool): System {
    if c in s.callers then s
    else
      var wait := if Target(s.fields).None? then Returned(true)
                  else Holding(Target(s.fields).value.0, Target(s.fields).value.1);
      s.(fields := if closing then s.fields.(closed := true) else s.fields,
         callers := s.callers[c := Caller(closing, wait)])
  }

  function Waits(s: System, c: CallerId, wait: Wait): System
    requires c in s.callers
  {
    s.(callers := s.callers[c := s.callers[c].(wait := wait)])
  }

  function DoCallCancel(s: System, c: CallerId): System {
    if c in s.callers && s.callers[c].wait.Holding? then
      DoCancel(Waits(s, c, Joining(s.callers[c].wait.done)), s.callers[c].wait.cancel)
    else s
  }

  function DoJoin(s: System, c: CallerId): System {
    if c in s.callers && s.callers[c].wait.Joining? && s.callers[c].wait.done in s.loops
       && s.loops[s.callers[c].wait.done].closes > 0
    then Waits(s, c, Returned(true)) else s
  }

  function DoGiveUp(s: System, c: CallerId): System {
    if c in s.callers && s.callers[c].wait.Joining? then Waits(s, c, Returned(false)) else s
  }

  function Do(s: System, step: Step): System {
    match step
    case Start(l) => DoStart(s, l)
    case Launch(l) => if At(s, l, Launching) then Move(s, l, Idle) else s
    case CancelParent(l) => DoCancel(s, l)
    case Tick(l) => DoTick(s, l)
    case PostReturns(l, reply) => DoPostReturns(s, l, reply)
    case AdoptId(l) => DoAdopt(s, l)
    case SeeDone(l) => if At(s, l, Idle) && s.loops[l].canceled then Move(s, l, Leave) else s
    case End(l) => DoEnd(s, l)
    case Enter(c, closing) => DoEnter(s, c, closing)
    case CallCancel(c) => DoCallCancel(s, c)
    case Join(c) => DoJoin(s, c)
    case GiveUp(c) => DoGiveUp(s, c)
  }

  function Run(interval: int, schedule: seq<Step>): System {
    if schedule == [] then System(Fields(None, None, false, "", interval), map[], map[])
    else Do(Run(interval, schedule[..|schedule| - 1]), schedule[|schedule| - 1])
  }

  /* The invariant */

  /** A loop is registered, with its own cancel function, exactly while it has not gone; its done channel
      closes once, when it goes; and what it posts is the current identifier. */
  ghost predicate LoopGood(f: Fields, l: LoopId, loop: Loop) {
    && (!loop.phase.Gone? <==> f.done == Some(l))
    && loop.closes == (if loop.phase.Gone? then 1 else 0)
    && loop.interval > 0
    && (loop.phase.Posting? ==> loop.phase.id == f.id)
  }

  /** A closing caller found the session's last loop, or none. */
  ghost predicate CallerGood(s: System, caller: Caller) {
    && (caller.wait.Holding? ==> caller.wait.cancel == caller.wait.done)
    && (caller.wait.Holding? || caller.wait.Joining? ==> caller.wait.done in s.loops)
    && (caller.closing ==>
          && s.fields.closed
          && (caller.wait.Holding? || caller.wait.Joining? ==>
                s.fields.done.None? || s.fields.done == Some(caller.wait.done))
          && (caller.wait == Returned(true) ==> s.fields.done.None?))
  }

  ghost predicate Invariant(s: System) {
    && s.fields.cancel == s.fields.done
    && (s.fields.done.Some? ==> s.fields.done.value in s.loops)
    && (forall l :: l in s.loops ==> LoopGood(s.fields, l, s.loops[l]))
    && (forall c :: c in s.callers ==> CallerGood(s, s.callers[c]))
  }

  lemma StepKeeps(s: System, step: Step)
    requires Invariant(s)
    ensures Invariant(Do(s, step))
  {
  }

  lemma {:induction false} Reachable(interval: int, schedule: seq<Step>)
    ensures Invariant(Run(interval, schedule))
  {
    if schedule != [] {
      Reachable(interval, schedule[..|schedule| - 1]);
      StepKeeps(Run(interval, schedule[..|schedule| - 1]), schedule[|schedule| - 1]);
    }
  }

  /** At most one loop is running, it is registered exactly while it runs, with its own cancel function, and
      every done channel closes once, when its loop ends. */
  lemma OneLoop(interval: int, schedule: seq<Step>, l: LoopId)
    requires l in Run(interval, schedule).loops
    ensures
      var s := Run(interval, schedule);
      && (!s.loops[l].phase.Gone? <==> s.fields.done == Some(l))
      && (!s.loops[l].phase.Gone? <==> s.fields.cancel == Some(l))
      && (s.loops[l].closes == if s.loops[l].phase.Gone? then 1 else 0)
      && s.loops[l].interval > 0
    ensures
      var s := Run(interval, schedule);
      forall l' :: l' in s.loops && !s.loops[l'].phase.Gone? && !s.loops[l].phase.Gone? ==> l' == l
  {
    hide Run;
    Reachable(interval, schedule);
    var s := Run(interval, schedule);
    assert LoopGood(s.fields, l, s.loops[l]);
    forall l' | l' in s.loops && !s.loops[l'].phase.Gone? && !s.loops[l].phase.Gone?
      ensures l' == l
    {
      assert LoopGood(s.fields, l', s.loops[l']);
    }
  }

  /** Only the registered loop changes the identifier, to the one it was told; what it was told is never
      lost, and every post carries the current identifier. */
  lemma OnlyTheLoopAdopts(interval: int, schedule: seq<Step>, step: Step)
    ensures
      var s, t := Run(interval, schedule), Run(interval, schedule + [step]);
      t.fields.id != s.fields.id ==>
        step.AdoptId? && s.fields.done == Some(step.l) && s.loops[step.l].phase.Adopt?
    ensures
      var s, t := Run(interval, schedule), Run(interval, schedule + [step]);
      step.AdoptId? && step.l in s.loops && s.loops[step.l].phase.Adopt? ==> t.fields.id == s.loops[step.l].phase.id
    ensures
      var s := Run(interval, schedule);
      forall l :: l in s.loops && s.loops[l].phase.Posting? ==> s.loops[l].phase.id == s.fields.id
  {
    Reachable(interval, schedule);
    assert (schedule + [step])[..|schedule|] == schedule;
    AdoptOnly(Run(interval, schedule), step);
  }

  lemma AdoptOnly(s: System, step: Step)
    requires Invariant(s)
    ensures Do(s, step).fields.id != s.fields.id ==>
              step.AdoptId? && s.fields.done == Some(step.l) && s.loops[step.l].phase.Adopt?
    ensures step.AdoptId? && step.l in s.loops && s.loops[step.l].phase.Adopt? ==>
              Do(s, step).fields.id == s.loops[step.l].phase.id
    ensures forall l :: l in s.loops && s.loops[l].phase.Posting? ==> s.loops[l].phase.id == s.fields.id
  {
  }

  /** No loop runs, none is registered, and none can be. */
  ghost predicate Ended(s: System) {
    && s.fields.closed && s.fields.cancel.None? && s.fields.done.None?
    && forall l :: l in s.loops ==> s.loops[l].phase.Gone?
  }

  lemma EndedStays(s: System, step: Step)
    requires Invariant(s) && Ended(s)
    ensures Ended(Do(s, step)) && Do(s, step).loops.Keys == s.loops.Keys && Do(s, step).fields == s.fields
  {
  }

  /** After a close or a shutdown has returned without error no loop runs, and none ever starts. */
  lemma {:induction false} ClosedForGood(interval: int, schedule: seq<Step>, more: seq<Step>, c: CallerId)
    requires c in Run(interval, schedule).callers
    requires Run(interval, schedule).callers[c] == Caller(true, Returned(true))
    ensures Ended(Run(interval, schedule + more))
    ensures Run(interval, schedule + more).loops.Keys == Run(interval, schedule).loops.Keys
    ensures Run(interval, schedule + more).fields == Run(interval, schedule).fields
  {
    if more == [] {
      assert schedule + more == schedule;
      Reachable(interval, schedule);
      CloserFindsNone(Run(interval, schedule), c);
    } else {
      var init := more[..|more| - 1];
      ClosedForGood(interval, schedule, init, c);
      assert (schedule + more)[..|schedule + more| - 1] == schedule + init;
      Reachable(interval, schedule + init);
      EndedStays(Run(interval, schedule + init), more[|more| - 1]);
    }
  }

  lemma CloserFindsNone(s: System, c: CallerId)
    requires Invariant(s) && c in s.callers && s.callers[c] == Caller(true, Returned(true))
    ensures Ended(s)
  {
    assert CallerGood(s, s.callers[c]);
    forall l | l in s.loops
      ensures s.loops[l].phase.Gone?
    {
      assert LoopGood(s.fields, l, s.loops[l]);
    }
  }

  /** A caller that joined returns without error only once the loop it waited for has gone. */
  lemma JoinedLoopIsGone(interval: int, schedule: seq<Step>, c: CallerId)
    requires c in Run(interval, schedule).callers && Run(interval, schedule).callers[c].wait.Joining?
    ensures
      var s, t := Run(interval, schedule), Run(interval, schedule + [Join(c)]);
      && s.callers[c].wait.done in s.loops
      && (t.callers[c].wait == Returned(true) <==> s.loops[s.callers[c].wait.done].phase.Gone?)
  {
    Reachable(interval, schedule);
    assert (schedule + [Join(c)])[..|schedule|] == schedule;
    var s := Run(interval, schedule);
    assert CallerGood(s, s.callers[c]);
    assert LoopGood(s.fields, s.callers[c].wait.done, s.loops[s.callers[c].wait.done]);
  }

  /** Stopping is reversible: until the lifecycle is closed, a loop can start whenever none runs. */
  lemma CanStartAgain(interval: int, schedule: seq<Step>, l: LoopId)
    requires l !in Run(interval, schedule).loops && !Run(interval, schedule).fields.closed
    requires forall l' :: l' in Run(interval, schedule).loops ==> Run(interval, schedule).loops[l'].phase.Gone?
    ensures
      var t := Run(interval, schedule + [Start(l)]);
      l in t.loops && t.loops[l].phase == Launching && t.fields.cancel == t.fields.done == Some(l)
  {
    Reachable(interval, schedule);
    assert (schedule + [Start(l)])[..|schedule|] == schedule;
  }

  /* What the loop does with the answers it gets */

  lemma RunTwo(interval: int, schedule: seq<Step>, x: Step, y: Step)
    ensures Run(interval, schedule + [x]) == Do(Run(interval, schedule), x)
    ensures Run(interval, schedule + [x, y]) == Do(Do(Run(interval, schedule), x), y)
  {
    hide Do;
    assert (schedule + [x])[..|schedule|] == schedule;
    assert (schedule + [x, y])[..|schedule| + 1] == schedule + [x];
  }

  /** A tick posts the current identifier. */
  lemma TickPostsCurrent(interval: int, schedule: seq<Step>, l: LoopId)
    requires At(Run(interval, schedule), l, Idle)
    ensures At(Run(interval, schedule + [Tick(l)]), l, Posting(Run(interval, schedule).fields.id, false))
  {
    hide Run;
    RunTwo(interval, schedule, Tick(l), Tick(l));
  }

  ghost predicate IsPosting(s: System, l: LoopId) {
    l in s.loops && s.loops[l].phase.Posting?
  }

  /** An accepted post rotates to the identifier it names, also after a cancellation; naming none, it keeps
      the current one. Either way the loop waits for its next tick. */
  lemma AcceptedRotates(interval: int, schedule: seq<Step>, l: LoopId, next: string)
    requires IsPosting(Run(interval, schedule), l)
    ensures
      var t := Run(interval, schedule + [PostReturns(l, Accepted(next)), AdoptId(l)]);
      && At(t, l, Idle)
      && t.fields.id == if next == "" then Run(interval, schedule).fields.id else next
  {
    hide Run;
    Reachable(interval, schedule);
    RunTwo(interval, schedule, PostReturns(l, Accepted(next)), AdoptId(l));
  }

  /** The first mismatch of a tick adopts the expected identifier and posts it at once; a mismatch of that
      second post, like any other failure, waits for the next tick with the identifier it has. */
  lemma MismatchRetriesOnce(interval: int, schedule: seq<Step>, l: LoopId, expected: string)
    requires IsPosting(Run(interval, schedule), l) && !Run(interval, schedule).loops[l].canceled
    ensures
      var s := Run(interval, schedule);
      var t := Run(interval, schedule + [PostReturns(l, Mismatch(expected)), AdoptId(l)]);
      if s.loops[l].phase.retry then At(t, l, Idle) && t.fields.id == s.fields.id
      else At(t, l, Posting(expected, true)) && t.fields.id == expected
  {
    hide Run;
    Reachable(interval, schedule);
    RunTwo(interval, schedule, PostReturns(l, Mismatch(expected)), AdoptId(l));
  }

  lemma FailureWaits(interval: int, schedule: seq<Step>, l: LoopId)
    requires IsPosting(Run(interval, schedule), l) && !Run(interval, schedule).loops[l].canceled
    ensures
      var t := Run(interval, schedule + [PostReturns(l, Failed)]);
      At(t, l, Idle) && t.fields == Run(interval, schedule).fields
  {
    hide Run;
    RunTwo(interval, schedule, PostReturns(l, Failed), Tick(l));
  }

  /** After a cancellation an error ends the loop, and so does waiting for a tick: it unregisters and its done
      channel closes. */
  lemma CanceledLoopEnds(interval: int, schedule: seq<Step>, l: LoopId, reply: Reply)
    requires l in Run(interval, schedule).loops && Run(interval, schedule).loops[l].canceled
    ensures
      var s := Run(interval, schedule);
      var t := Run(interval, schedule + [if s.loops[l].phase.Posting? then PostReturns(l, reply) else SeeDone(l), End(l)]);
      (IsPosting(s, l) && !reply.Accepted?) || At(s, l, Idle) ==>
        At(t, l, Gone) && t.loops[l].closes == 1 && t.fields.cancel == None && t.fields.done == None
        && t.fields.id == s.fields.id
  {
    hide Run;
    Reachable(interval, schedule);
    var s := Run(interval, schedule);
    RunTwo(interval, schedule, if s.loops[l].phase.Posting? then PostReturns(l, reply) else SeeDone(l), End(l));
  }

  /** A caller that stops or closes returns at once if and only if no loop runs; otherwise it cancels the loop
      that runs and waits for it. */
  lemma StopFindsTheLoop(interval: int, schedule: seq<Step>, c: CallerId, closing: bool)
    requires c !in Run(interval, schedule).callers
    ensures
      var s := Run(interval, schedule);
      var t, u := Run(interval, schedule + [Enter(c, closing)]), Run(interval, schedule + [Enter(c, closing), CallCancel(c)]);
      && c in t.callers && (t.callers[c].wait == Returned(true) <==> forall l :: l in s.loops ==> s.loops[l].phase.Gone?)
      && (forall l :: l in s.loops && !s.loops[l].phase.Gone? ==>
            c in u.callers && u.callers[c].wait == Joining(l) && l in u.loops && u.loops[l].canceled)
      && t.fields == s.fields.(closed := s.fields.closed || closing)
  {
    hide Run;
    Reachable(interval, schedule);
    var s := Run(interval, schedule);
    RunTwo(interval, schedule, Enter(c, closing), CallCancel(c));
    if s.fields.done.Some? {
      assert LoopGood(s.fields, s.fields.done.value, s.loops[s.fields.done.value]);
    }
  }

  /** The lifecycle is closed if and only if some caller has closed it: stopping is reversible. */
  lemma {:induction false} ClosedByClosing(interval: int, schedule: seq<Step>)
    ensures
      var s := Run(interval, schedule);
      s.fields.closed <==> exists c :: c in s.callers && s.callers[c].closing
  {
    if schedule != [] {
      ClosedByClosing(interval, schedule[..|schedule| - 1]);
      ClosingKeeps(Run(interval, schedule[..|schedule| - 1]), schedule[|schedule| - 1]);
    }
  }

  ghost predicate ClosedByCaller(s: System) {
    s.fields.closed <==> exists c :: c in s.callers && s.callers[c].closing
  }

  lemma ClosingKeeps(s: System, step: Step)
    requires ClosedByCaller(s)
    ensures ClosedByCaller(Do(s, step))
  {
    var t := Do(s, step);
    assert forall c :: c in s.callers ==> c in t.callers && t.callers[c].closing == s.callers[c].closing;
    assert forall c :: c in t.callers && c !in s.callers ==> step == Enter(c, t.callers[c].closing);
    if step.Enter? && step.closing {
      assert step.c in t.callers;
    }
  }

  /** Every loop ticks at the configured interval, or every five seconds when none is configured. */
  lemma {:induction false} ConfiguredInterval(interval: int, schedule: seq<Step>)
    ensures
      var s := Run(interval, schedule);
      && (s.fields.interval == interval || (interval <= 0 && s.fields.interval == 5))
      && forall l :: l in s.loops ==> s.loops[l].interval == if interval <= 0 then 5 else interval
  {
    if schedule != [] {
      ConfiguredInterval(interval, schedule[..|schedule| - 1]);
      IntervalKeeps(Run(interval, schedule[..|schedule| - 1]), schedule[|schedule| - 1]);
    }
  }

  lemma IntervalKeeps(s: System, step: Step)
    ensures Do(s, step).fields.interval == s.fields.interval
            || (s.fields.interval <= 0 && Do(s, step).fields.interval == 5)
    ensures forall l :: l in s.loops ==> l in Do(s, step).loops && Do(s, step).loops[l].interval == s.loops[l].interval
    ensures forall l :: l in Do(s, step).loops && l !in s.loops ==>
              Do(s, step).loops[l].interval == if s.fields.interval <= 0 then 5 else s.fields.interval
  {
  }
}
