/**
 Every interleaving of callers, the read loop, the gateway and session shutdown
 over one quoter session (clob/combo_quoter_session.go, clob/combo_quoter_events.go).

 A schedule is any sequence of steps; a step that is not enabled changes nothing.
 The gateway answers a command at most once, whenever it likes, in any order, also a
 command whose write reported a failure. Acknowledgements carry no command ID.
 */
module ComboProtocol {
  import opened Common
  import opened ComboInbound
  import opened ComboSession

  /** Where one call of `command` is. */
  datatype Phase =
    | AtGate
    | HoldingGate
    | Writing
    | WriteFailed
    | Waiting
    | TimedOut
    | Returned(outcome: Outcome)

  datatype Outcome = Received(delivery: Delivery) | Locally(err: Error)

  /** What the gateway has done with the command. */
  datatype Wire = Unsent | Unanswered | InFlight(frame: Frame) | Read(frame: Frame)

  /** One call: its key, for a confirmation the decision asked for, where it is, what the gateway did, and for
      a confirmation the error or success that its caller ends with. */
  datatype Command = Command(
    key: AckKey, decision: Decision, phase: Phase, wire: Wire, verdict: Option<Option<Error>>)

  datatype System = System(session: Session, gate: Option<CommandId>, commands: map<CommandId, Command>)

  const START := System(OPENED, None, map[])

  datatype Step =
    | Call(c: CommandId, key: AckKey, decision: Decision)
    | TakeGate(c: CommandId)
    | LeaveGate(c: CommandId, why: Error)
    | Register(c: CommandId)
    | WriteReturns(c: CommandId, ok: bool)
    | TimeOut(c: CommandId)
    | FinishOwn(c: CommandId, why: Error)
    | Receive(c: CommandId)
    | Conclude(c: CommandId)
    | Answer(c: CommandId, frame: Frame)
    | ReadFrame(c: CommandId)
    | Shutdown(err: Option<Error>)

  predicate InPhase(s: System, c: CommandId, phase: Phase) {
    c in s.commands && s.commands[c].phase == phase
  }

  function MoveTo(s: System, c: CommandId, phase: Phase): System
    requires c in s.commands
  {
    s.(commands := s.commands[c := s.commands[c].(phase := phase)])
  }

  function DoCall(s: System, c: CommandId, key: AckKey, decision: Decision): System {
    if c in s.commands || !Issuable(key) || (key.kind.Confirmation? && decision.OtherDecision?) then s
    else s.(commands := s.commands[c := Command(key, decision, AtGate, Unsent, None)])
  }

  function DoTakeGate(s: System, c: CommandId): System {
    if InPhase(s, c, AtGate) && s.gate.None? then MoveTo(s, c, HoldingGate).(gate := Some(c)) else s
  }

  function DoLeaveGate(s: System, c: CommandId, why: Error): System {
    if InPhase(s, c, AtGate) then MoveTo(s, c, Returned(Locally(why)))
    else if InPhase(s, c, HoldingGate) then MoveTo(s, c, Returned(Locally(why))).(gate := None)
    else s
  }

  function DoRegister(s: System, c: CommandId): System {
    if InPhase(s, c, HoldingGate) then
      var (session, r) := Registering(s.session, s.commands[c].key, c);
      match r
      case Refused(err) => MoveTo(s, c, Returned(Locally(err))).(gate := None)
      case Registered =>
        s.(session := session, commands := s.commands[c := s.commands[c].(phase := Writing, wire := Unanswered)])
    else s
  }

  function DoWriteReturns(s: System, c: CommandId, ok: bool): System {
    if InPhase(s, c, Writing) then MoveTo(s, c, if ok then Waiting else WriteFailed).(gate := None) else s
  }

  function DoTimeOut(s: System, c: CommandId): System {
    if InPhase(s, c, Waiting) then MoveTo(s, c, TimedOut) else s
  }

  function DoFinishOwn(s: System, c: CommandId, why: Error): System {
    if InPhase(s, c, WriteFailed) || InPhase(s, c, TimedOut) then
      MoveTo(DoShutdown(s, Some(why)), c, Returned(Locally(why)))
    else s
  }

  function DoReceive(s: System, c: CommandId): System {
    if InPhase(s, c, Waiting) && c in s.session.channels && s.session.channels[c].buffer.Some? then
      var ch := s.session.channels[c];
      MoveTo(s, c, Returned(Received(ch.buffer.value)))
      .(session := s.session.(channels := s.session.channels[c := ch.(buffer := None)]))
    else s
  }

  /** What a confirmation ends with, given what its command returned. */
  function VerdictOf(decision: Decision, outcome: Outcome): Option<Error> {
    match outcome
    case Locally(err) => Some(err)
    case Received(FromFinish(err)) => Some(err)
    case Received(FromGateway(_, result)) => Concluding(decision, result)
  }

  /** The command was acknowledged, with another decision than the one asked for. */
  predicate Mismatched(cmd: Command) {
    && cmd.phase.Returned? && cmd.phase.outcome.Received? && cmd.phase.outcome.delivery.FromGateway?
    && cmd.phase.outcome.delivery.result.err.None? && cmd.phase.outcome.delivery.result.decision != cmd.decision
  }

  predicate CanConclude(s: System, c: CommandId) {
    && c in s.commands && s.commands[c].key.kind.Confirmation?
    && s.commands[c].phase.Returned? && s.commands[c].verdict.None?
  }

  function WithVerdict(s: System, c: CommandId): System
    requires c in s.commands && s.commands[c].phase.Returned?
  {
    var cmd := s.commands[c];
    s.(commands := s.commands[c := cmd.(verdict := Some(VerdictOf(cmd.decision, cmd.phase.outcome)))])
  }

  /** The end of a confirmation: a mismatch finishes the session before the caller gets its error. */
  function DoConclude(s: System, c: CommandId): System {
    if CanConclude(s, c) then
      WithVerdict(if Mismatched(s.commands[c]) then DoShutdown(s, Some(DecisionMismatch)) else s, c)
    else s
  }

  function DoAnswer(s: System, c: CommandId, frame: Frame): System {
    if c in s.commands && s.commands[c].wire.Unanswered? && Replies(s.commands[c].key, frame) then
      s.(commands := s.commands[c := s.commands[c].(wire := InFlight(frame))])
    else s
  }

  function MarkRead(s: System, c: CommandId): System
    requires c in s.commands && s.commands[c].wire.InFlight?
  {
    s.(commands := s.commands[c := s.commands[c].(wire := Read(s.commands[c].wire.frame))])
  }

  function DoReadFrame(s: System, c: CommandId): System {
    if c in s.commands && s.commands[c].wire.InFlight? then
      var frame, read := s.commands[c].wire.frame, MarkRead(s, c);
      match HandleInbound(frame)
      case Settle(key, result) => read.(session := Resolving(read.session, key, FromGateway(c, result)))
      case Terminate(err) => DoShutdown(read, Some(err))
      case Drop => read
      case Broadcast => read
    else s
  }

  function DoShutdown(s: System, err: Option<Error>): System {
    s.(session := Finishing(s.session, err))
  }

  function Do(s: System, step: Step): System {
    match step
    case Call(c, key, decision) => DoCall(s, c, key, decision)
    case TakeGate(c) => DoTakeGate(s, c)
    case LeaveGate(c, why) => DoLeaveGate(s, c, why)
    case Register(c) => DoRegister(s, c)
    case WriteReturns(c, ok) => DoWriteReturns(s, c, ok)
    case TimeOut(c) => DoTimeOut(s, c)
    case FinishOwn(c, why) => DoFinishOwn(s, c, why)
    case Receive(c) => DoReceive(s, c)
    case Conclude(c) => DoConclude(s, c)
    case Answer(c, frame) => DoAnswer(s, c, frame)
    case ReadFrame(c) => DoReadFrame(s, c)
    case Shutdown(err) => DoShutdown(s, err)
  }

  function Run(schedule: seq<Step>): System {
    if schedule == [] then START
    else Do(Run(schedule[..|schedule| - 1]), schedule[|schedule| - 1])
  }

  /** Everything about the system that concerns one command. */
  datatype Local = Local(
    cmd: Command, channel: Option<Channel>, isPending: bool, holdsGate: bool, closed: bool, err: Option<Error>)

  function ViewOf(s: System, c: CommandId): Local
    requires c in s.commands
  {
    var cmd := s.commands[c];
    Local(
      cmd,
      if c in s.session.channels then Some(s.session.channels[c]) else None,
      cmd.key in s.session.pending && s.session.pending[cmd.key] == c,
      s.gate == Some(c),
      s.session.closed,
      s.session.err)
  }

  /** `d` answers command `c` itself, or reports the session's own terminal error. */
  ghost predicate OwnResult(c: CommandId, v: Local, d: Delivery) {
    match d
    case FromGateway(origin, result) =>
      && origin == c
      && v.cmd.wire.Read?
      && HandleInbound(v.cmd.wire.frame) == Settle(v.cmd.key, result)
    case FromFinish(err) =>
      v.closed && err == PendingError(v.err)
  }

  predicate HasReceived(phase: Phase) {
    phase.Returned? && phase.outcome.Received?
  }

  /** The life of a command and its result channel: nothing is sent while it is pending,
      exactly one result ever after, and that result is its own. */
  ghost predicate Good(c: CommandId, v: Local) {
    Lives(c, v) && Judged(v) && Settled(v)
  }

  /** A registered command that gave up on its reply has ended the session. */
  ghost predicate Settled(v: Local) {
    !v.cmd.wire.Unsent? && v.cmd.phase.Returned? && v.cmd.phase.outcome.Locally? ==> v.closed
  }

  /** A verdict is what the returned command entails, and a mismatch has ended the session. */
  ghost predicate Judged(v: Local) {
    && (v.cmd.key.kind.Confirmation? ==> !v.cmd.decision.OtherDecision?)
    && (v.cmd.verdict.Some? ==>
          && v.cmd.key.kind.Confirmation? && v.cmd.phase.Returned?
          && v.cmd.verdict.value == VerdictOf(v.cmd.decision, v.cmd.phase.outcome)
          && (Mismatched(v.cmd) ==> v.closed))
  }

  ghost predicate Lives(c: CommandId, v: Local) {
    var cmd := v.cmd;
    && Issuable(cmd.key)
    && (v.holdsGate <==> cmd.phase.HoldingGate? || cmd.phase.Writing?)
    && (v.channel.None? <==> cmd.wire.Unsent?)
    && (cmd.phase.AtGate? || cmd.phase.HoldingGate? ==> cmd.wire.Unsent?)
    && (cmd.wire.Unsent? && cmd.phase.Returned? ==> cmd.phase.outcome.Locally?)
    && (cmd.wire.Unsent? ==> !v.isPending && (cmd.phase.AtGate? || cmd.phase.HoldingGate? || cmd.phase.Returned?))
    && (cmd.wire.InFlight? ==> Replies(cmd.key, cmd.wire.frame))
    && (v.channel.Some? ==>
          var ch := v.channel.value;
          && (v.isPending ==> ch == Channel(None, 0) && !HasReceived(cmd.phase))
          && (!v.isPending ==> ch.sends == 1 && (ch.buffer.None? <==> HasReceived(cmd.phase)))
          && (ch.buffer.Some? ==> OwnResult(c, v, ch.buffer.value))
          && (HasReceived(cmd.phase) ==> OwnResult(c, v, cmd.phase.outcome.delivery))
          && (!v.closed && (cmd.wire.Unanswered? || cmd.wire.InFlight?) ==> v.isPending))
  }

  ghost predicate Linked(s: System) {
    && (s.gate.Some? ==> s.gate.value in s.commands)
    && s.session.channels.Keys <= s.commands.Keys
    && (forall k :: k in s.session.pending ==>
          s.session.pending[k] in s.commands && s.commands[s.session.pending[k]].key == k)
    && (s.session.closed ==> s.session.pending == map[] && s.session.doneCloses == 1)
    && (!s.session.closed ==> s.session.err.None? && s.session.doneCloses == 0)
  }

  ghost predicate AllGood(s: System) {
    forall c :: c in s.commands ==> Good(c, ViewOf(s, c))
  }

  ghost predicate Invariant(s: System) {
    Linked(s) && AllGood(s)
  }

  /** A step that leaves the view of every other command alone only has to account for `c`. */
  lemma Frame(s: System, t: System, c: CommandId)
    requires AllGood(s)
    requires t.commands.Keys <= s.commands.Keys + {c}
    requires forall c' :: c' in t.commands && c' != c ==> ViewOf(t, c') == ViewOf(s, c')
    requires c in t.commands ==> Good(c, ViewOf(t, c))
    ensures AllGood(t)
  {
  }

  lemma CallKeeps(s: System, c: CommandId, key: AckKey, decision: Decision)
    requires Invariant(s)
    ensures Invariant(DoCall(s, c, key, decision))
  {
    Frame(s, DoCall(s, c, key, decision), c);
  }

  /** A step that changes one command, and perhaps takes the gate for it or gives it back, has to account for
      that command only. */
  lemma Update(s: System, c: CommandId, cmd: Command, gate: Option<CommandId>)
    requires Invariant(s) && c in s.commands && cmd.key == s.commands[c].key
    requires gate == s.gate || (gate == None && s.gate == Some(c)) || (gate == Some(c) && s.gate == None)
    requires Good(c, ViewOf(s, c).(cmd := cmd, holdsGate := gate == Some(c)))
    ensures Invariant(s.(commands := s.commands[c := cmd], gate := gate))
  {
    hide Good;
    Frame(s, s.(commands := s.commands[c := cmd], gate := gate), c);
  }

  lemma TakeGateKeeps(s: System, c: CommandId)
    requires Invariant(s)
    ensures Invariant(DoTakeGate(s, c))
  {
    hide Invariant;
    if InPhase(s, c, AtGate) && s.gate.None? {
      GoodView(s, c);
      Update(s, c, s.commands[c].(phase := HoldingGate), Some(c));
    }
  }

  lemma GoodView(s: System, c: CommandId)
    requires Invariant(s) && c in s.commands
    ensures Good(c, ViewOf(s, c))
  {
  }

  lemma LeaveGateKeeps(s: System, c: CommandId, why: Error)
    requires Invariant(s)
    ensures Invariant(DoLeaveGate(s, c, why))
  {
    hide Invariant;
    if InPhase(s, c, AtGate) {
      GoodView(s, c);
      Update(s, c, s.commands[c].(phase := Returned(Locally(why))), s.gate);
    } else if InPhase(s, c, HoldingGate) {
      GoodView(s, c);
      Update(s, c, s.commands[c].(phase := Returned(Locally(why))), None);
    }
  }

  lemma RegisterKeeps(s: System, c: CommandId)
    requires Invariant(s)
    ensures Invariant(DoRegister(s, c))
  {
    hide Good;
    if InPhase(s, c, HoldingGate) {
      match Registering(s.session, s.commands[c].key, c).1
      case Refused(err) =>
        LeaveGateKeeps(s, c, err);
      case Registered =>
        RegisterOwn(s, c);
        RegisterChangesOnly(s, c);
        Frame(s, DoRegister(s, c), c);
    }
  }

  lemma RegisterChangesOnly(s: System, c: CommandId)
    requires Invariant(s) && InPhase(s, c, HoldingGate)
    ensures forall c' :: c' in s.commands && c' != c ==> ViewOf(DoRegister(s, c), c') == ViewOf(s, c')
  {
  }

  lemma RegisterOwn(s: System, c: CommandId)
    requires Invariant(s) && InPhase(s, c, HoldingGate)
    requires Registering(s.session, s.commands[c].key, c).1.Registered?
    ensures Linked(DoRegister(s, c)) && Good(c, ViewOf(DoRegister(s, c), c))
  {
    GoodView(s, c);
  }

  lemma WriteReturnsKeeps(s: System, c: CommandId, ok: bool)
    requires Invariant(s)
    ensures Invariant(DoWriteReturns(s, c, ok))
  {
    hide Invariant;
    if InPhase(s, c, Writing) {
      GoodView(s, c);
      Update(s, c, s.commands[c].(phase := if ok then Waiting else WriteFailed), None);
    }
  }

  lemma TimeOutKeeps(s: System, c: CommandId)
    requires Invariant(s)
    ensures Invariant(DoTimeOut(s, c))
  {
    hide Invariant;
    if InPhase(s, c, Waiting) {
      GoodView(s, c);
      Update(s, c, s.commands[c].(phase := TimedOut), s.gate);
    }
  }

  lemma ReceiveKeeps(s: System, c: CommandId)
    requires Invariant(s)
    ensures Invariant(DoReceive(s, c))
  {
    ReceiveOwn(s, c);
    hide Good;
    Frame(s, DoReceive(s, c), c);
  }

  lemma ReceiveOwn(s: System, c: CommandId)
    requires Invariant(s)
    ensures Linked(DoReceive(s, c))
    ensures c in s.commands ==> Good(c, ViewOf(DoReceive(s, c), c))
  {
    if c in s.commands {
      GoodView(s, c);
    }
  }

  lemma AnswerKeeps(s: System, c: CommandId, frame: Frame)
    requires Invariant(s)
    ensures Invariant(DoAnswer(s, c, frame))
  {
    hide Invariant, Replies;
    if c in s.commands && s.commands[c].wire.Unanswered? && Replies(s.commands[c].key, frame) {
      GoodView(s, c);
      Update(s, c, s.commands[c].(wire := InFlight(frame)), s.gate);
    }
  }

  lemma ConcludeKeeps(s: System, c: CommandId)
    requires Invariant(s)
    ensures Invariant(DoConclude(s, c))
  {
    hide Invariant;
    if CanConclude(s, c) {
      var t := if Mismatched(s.commands[c]) then DoShutdown(s, Some(DecisionMismatch)) else s;
      ShutdownKeeps(s, Some(DecisionMismatch));
      GoodView(t, c);
      var cmd := t.commands[c];
      Update(t, c, cmd.(verdict := Some(VerdictOf(cmd.decision, cmd.phase.outcome))), t.gate);
    }
  }

  /** Finishing settles every pending command and nothing else. */
  lemma ShutdownKeeps(s: System, err: Option<Error>)
    requires Invariant(s)
    ensures Invariant(DoShutdown(s, err))
  {
    var t := DoShutdown(s, err);
    if !s.session.closed {
      forall c | c in t.commands
        ensures Good(c, ViewOf(t, c))
      {
        assert Good(c, ViewOf(s, c));
        assert c in s.session.pending.Values <==> ViewOf(s, c).isPending;
      }
    }
  }

  lemma FinishOwnKeeps(s: System, c: CommandId, why: Error)
    requires Invariant(s)
    ensures Invariant(DoFinishOwn(s, c, why))
  {
    hide Invariant;
    if InPhase(s, c, WriteFailed) || InPhase(s, c, TimedOut) {
      var t := DoShutdown(s, Some(why));
      ShutdownKeeps(s, Some(why));
      GoodView(t, c);
      Update(t, c, t.commands[c].(phase := Returned(Locally(why))), t.gate);
    }
  }

  /** In an open session the command that a frame answers still owns its key, so the
      frame settles that command and no other. */
  lemma SettleKeeps(s: System, c: CommandId)
    requires Invariant(s) && c in s.commands && s.commands[c].wire.InFlight?
    requires HandleInbound(s.commands[c].wire.frame).Settle?
    ensures Invariant(DoReadFrame(s, c))
  {
    SettleOwn(s, c);
    SettleChangesOnly(s, c);
    Frame(s, DoReadFrame(s, c), c);
  }

  lemma SettleOwn(s: System, c: CommandId)
    requires Invariant(s) && c in s.commands && s.commands[c].wire.InFlight?
    requires HandleInbound(s.commands[c].wire.frame).Settle?
    ensures Linked(DoReadFrame(s, c)) && Good(c, ViewOf(DoReadFrame(s, c), c))
  {
    assert Good(c, ViewOf(s, c));
    ReplySettlesItsCommand(s.commands[c].key, s.commands[c].wire.frame);
  }

  lemma SettleChangesOnly(s: System, c: CommandId)
    requires Invariant(s) && c in s.commands && s.commands[c].wire.InFlight?
    requires HandleInbound(s.commands[c].wire.frame).Settle?
    ensures DoReadFrame(s, c).commands.Keys == s.commands.Keys
    ensures forall c' :: c' in s.commands && c' != c ==> ViewOf(DoReadFrame(s, c), c') == ViewOf(s, c')
  {
    assert Good(c, ViewOf(s, c));
    ReplySettlesItsCommand(s.commands[c].key, s.commands[c].wire.frame);
  }

  lemma MarkReadKeeps(s: System, c: CommandId)
    requires Invariant(s) && c in s.commands && s.commands[c].wire.InFlight?
    ensures Invariant(MarkRead(s, c))
  {
    hide Invariant;
    GoodView(s, c);
    Update(s, c, s.commands[c].(wire := Read(s.commands[c].wire.frame)), s.gate);
  }

  lemma ReadFrameKeeps(s: System, c: CommandId)
    requires Invariant(s)
    ensures Invariant(DoReadFrame(s, c))
  {
    if c in s.commands && s.commands[c].wire.InFlight? {
      match HandleInbound(s.commands[c].wire.frame)
      case Settle(_, _) => SettleKeeps(s, c);
      case Terminate(err) =>
        MarkReadKeeps(s, c);
        ShutdownKeeps(MarkRead(s, c), Some(err));
      case _ => MarkReadKeeps(s, c);
    }
  }

  lemma StepKeeps(s: System, step: Step)
    requires Invariant(s)
    ensures Invariant(Do(s, step))
  {
    match step
    case Call(c, key, decision) => CallKeeps(s, c, key, decision);
    case TakeGate(c) => TakeGateKeeps(s, c);
    case LeaveGate(c, why) => LeaveGateKeeps(s, c, why);
    case Register(c) => RegisterKeeps(s, c);
    case WriteReturns(c, ok) => WriteReturnsKeeps(s, c, ok);
    case TimeOut(c) => TimeOutKeeps(s, c);
    case FinishOwn(c, why) => FinishOwnKeeps(s, c, why);
    case Receive(c) => ReceiveKeeps(s, c);
    case Conclude(c) => ConcludeKeeps(s, c);
    case Answer(c, frame) => AnswerKeeps(s, c, frame);
    case ReadFrame(c) => ReadFrameKeeps(s, c);
    case Shutdown(err) => ShutdownKeeps(s, err);
  }

  lemma {:induction false} Reachable(schedule: seq<Step>)
    ensures Invariant(Run(schedule))
  {
    if schedule != [] {
      Reachable(schedule[..|schedule| - 1]);
      StepKeeps(Run(schedule[..|schedule| - 1]), schedule[|schedule| - 1]);
    }
  }

  /** Acknowledgement correlation. In every interleaving, a gateway result that a caller receives
      was sent in reply to that caller's own command: the frame that answered this very command is
      the one that settled it. A result that is not the gateway's is the session's terminal error. */
  lemma AckCorrelation(schedule: seq<Step>, c: CommandId)
    requires c in Run(schedule).commands && HasReceived(Run(schedule).commands[c].phase)
    ensures
      var s := Run(schedule);
      match s.commands[c].phase.outcome.delivery
      case FromGateway(origin, result) =>
        && origin == c
        && s.commands[c].wire.Read?
        && Replies(s.commands[c].key, s.commands[c].wire.frame)
        && HandleInbound(s.commands[c].wire.frame) == Settle(s.commands[c].key, result)
      case FromFinish(err) =>
        s.session.closed && err == PendingError(s.session.err)
  {
    Reachable(schedule);
    assert Good(c, ViewOf(Run(schedule), c));
  }

  /** What a caller is given is what the frame that answered its command says: both identifiers and the
      decision of an acknowledgement, every field of a rejection, or the session's own terminal error. */
  lemma ReturnedIsItsFrame(schedule: seq<Step>, c: CommandId)
    requires c in Run(schedule).commands && HasReceived(Run(schedule).commands[c].phase)
    ensures
      var s := Run(schedule);
      var cmd := s.commands[c];
      match cmd.phase.outcome.delivery
      case FromGateway(origin, result) =>
        && origin == c && cmd.wire.Read?
        && (cmd.wire.frame.frameType.Ack? && !cmd.key.kind.Auth? ==>
              result == AckResult(Reference(cmd.wire.frame.rfqId, cmd.wire.frame.quoteId), cmd.wire.frame.decision, None))
        && (cmd.wire.frame.frameType.RfqError? ==>
              result.err == Some(CommandRejected(Request(cmd.key.kind), cmd.wire.frame.rfqId, cmd.wire.frame.quoteId,
                                                 cmd.wire.frame.code, cmd.wire.frame.errorId, cmd.wire.frame.error)))
      case FromFinish(err) =>
        s.session.closed && err == if s.session.err == None then SessionClosed else s.session.err.value
  {
    hide Run, Do;
    Reachable(schedule);
    GoodView(Run(schedule), c);
    AckCorrelation(schedule, c);
    var cmd := Run(schedule).commands[c];
    if cmd.phase.outcome.delivery.FromGateway? {
      ReplySettlesItsCommand(cmd.key, cmd.wire.frame);
      ReplyCarriesItsFrame(cmd.key, cmd.wire.frame);
    }
  }

  /** A command that was registered and ended without a reply, because its write failed or its time ran out, has
      ended the session: no later command can take the late reply for its own. */
  lemma AmbiguityEndsSession(schedule: seq<Step>, c: CommandId)
    requires c in Run(schedule).session.channels && c in Run(schedule).commands
    requires Run(schedule).commands[c].phase.Returned? && Run(schedule).commands[c].phase.outcome.Locally?
    ensures Run(schedule).session.closed && Run(schedule).session.pending == map[]
  {
    hide Run;
    Reachable(schedule);
    GoodView(Run(schedule), c);
    ClosedPending(Run(schedule));
  }

  /** The caller is given the reason, which is the terminal error of the session if it was still open. */
  lemma FailureIsTerminal(schedule: seq<Step>, c: CommandId, why: Error)
    requires InPhase(Run(schedule), c, WriteFailed) || InPhase(Run(schedule), c, TimedOut)
    ensures
      var s, t := Run(schedule), Run(schedule + [FinishOwn(c, why)]);
      && InPhase(t, c, Returned(Locally(why))) && t.session.closed
      && t.session.err == if s.session.closed then s.session.err else Some(why)
  {
    hide Run;
    RunSnoc(schedule, FinishOwn(c, why));
  }

  /** A write gives the gate back and leads to waiting, or to failure if it failed; waiting can run out of time,
      whatever else is going on. */
  lemma WriteThenWait(schedule: seq<Step>, c: CommandId, ok: bool)
    requires InPhase(Run(schedule), c, Writing)
    ensures
      var t, u := Run(schedule + [WriteReturns(c, ok)]), Run(schedule + [WriteReturns(c, ok), TimeOut(c)]);
      && t.gate == None && t.session == Run(schedule).session
      && InPhase(t, c, if ok then Waiting else WriteFailed) && InPhase(u, c, if ok then TimedOut else WriteFailed)
  {
    hide Run;
    RunSnoc(schedule, WriteReturns(c, ok));
    RunTwo(schedule, WriteReturns(c, ok), TimeOut(c));
  }

  /** A command that reaches its registration is refused when the session is closed or its key is pending,
      each with its own error, and is otherwise registered and written. */
  lemma RegistrationAnswers(schedule: seq<Step>, c: CommandId)
    requires InPhase(Run(schedule), c, HoldingGate)
    ensures
      var s, t := Run(schedule), Run(schedule + [Register(c)]);
      c in t.commands &&
      if s.session.closed then t.commands[c].phase == Returned(Locally(SessionClosed)) && t.gate == None
      else if s.commands[c].key in s.session.pending then
        t.commands[c].phase == Returned(Locally(CommandPending)) && t.gate == None && t.session == s.session
      else t.commands[c].phase == Writing && s.commands[c].key in t.session.pending
           && t.session.pending[s.commands[c].key] == c
  {
    var more := schedule + [Register(c)];
    assert more[..|more| - 1] == schedule;
  }

  /** An acknowledgement that is read while its command waits reaches its caller. */
  lemma AnsweredIsReceived(schedule: seq<Step>, c: CommandId)
    requires
      var s := Run(schedule);
      && InPhase(s, c, Waiting) && s.commands[c].wire.InFlight? && !s.session.closed
      && Complete(s.commands[c].key, s.commands[c].wire.frame)
    ensures
      var s, t := Run(schedule), Run(schedule + [ReadFrame(c), Receive(c)]);
      && HandleInbound(s.commands[c].wire.frame).Settle? && c in t.commands
      && t.commands[c].phase == Returned(Received(FromGateway(c, HandleInbound(s.commands[c].wire.frame).result)))
  {
    hide Run, DoReadFrame, DoReceive, HandleInbound, Invariant, Complete;
    Reachable(schedule);
    var s := Run(schedule);
    RunTwo(schedule, ReadFrame(c), Receive(c));
    ReadDelivers(s, c);
    ReceiveTakes(DoReadFrame(s, c), c);
  }

  lemma RunTwo(schedule: seq<Step>, x: Step, y: Step)
    ensures Run(schedule + [x, y]) == Do(Do(Run(schedule), x), y)
  {
    hide Run, Do;
    RunSnoc(schedule, x);
    RunSnoc(schedule + [x], y);
    assert schedule + [x, y] == schedule + [x] + [y];
  }

  lemma ReadDelivers(s: System, c: CommandId)
    requires Invariant(s) && InPhase(s, c, Waiting) && s.commands[c].wire.InFlight? && !s.session.closed
    requires Complete(s.commands[c].key, s.commands[c].wire.frame)
    ensures
      var t, action := DoReadFrame(s, c), HandleInbound(s.commands[c].wire.frame);
      && action.Settle? && InPhase(t, c, Waiting) && c in t.session.channels
      && t.session.channels[c].buffer == Some(FromGateway(c, action.result))
  {
    GoodView(s, c);
    ReplySettlesItsCommand(s.commands[c].key, s.commands[c].wire.frame);
  }

  lemma ReceiveTakes(s: System, c: CommandId)
    requires InPhase(s, c, Waiting) && c in s.session.channels && s.session.channels[c].buffer.Some?
    ensures InPhase(DoReceive(s, c), c, Returned(Received(s.session.channels[c].buffer.value)))
  {
  }

  lemma RunSnoc(schedule: seq<Step>, step: Step)
    ensures Run(schedule + [step]) == Do(Run(schedule), step)
  {
    assert (schedule + [step])[..|schedule|] == schedule;
  }

  /** A successful acknowledgement returned to a caller names the RFQ, and for a cancellation or a
      confirmation also the quote, that the caller asked about. */
  lemma ReturnedReferenceIsRequested(schedule: seq<Step>, c: CommandId, result: AckResult)
    requires InPhase(Run(schedule), c, Returned(Received(FromGateway(c, result)))) && result.err.None?
    requires !Run(schedule).commands[c].key.kind.Auth?
    ensures
      var key := Run(schedule).commands[c].key;
      && result.reference.rfqId == key.rfqId
      && (!key.kind.Quote? ==> result.reference.quoteId == key.quoteId)
  {
    AckCorrelation(schedule, c);
    AcknowledgementNamesItsRequest(Run(schedule).commands[c].key, result, Run(schedule).commands[c].wire.frame);
  }

  /** A confirmation ends without error if and only if the gateway acknowledged that very command without
      error and with the decision that was asked for; the acknowledgement then names its RFQ and quote. */
  lemma ConfirmedAsAsked(schedule: seq<Step>, c: CommandId)
    requires c in Run(schedule).commands && Run(schedule).commands[c].verdict.Some?
    ensures
      var cmd := Run(schedule).commands[c];
      && cmd.key.kind.Confirmation? && !cmd.decision.OtherDecision? && cmd.phase.Returned?
      && (cmd.verdict == Some(None) <==>
            && cmd.phase.outcome.Received? && cmd.phase.outcome.delivery.FromGateway?
            && cmd.phase.outcome.delivery.result
               == AckResult(Reference(cmd.key.rfqId, cmd.key.quoteId), cmd.decision, None))
      && (cmd.verdict == Some(None) ==>
            && cmd.phase.outcome.delivery.command == c && cmd.wire.Read?
            && cmd.wire.frame.frameType == Ack(Confirmation) && cmd.wire.frame.decision == cmd.decision)
  {
    hide Run;
    Reachable(schedule);
    GoodView(Run(schedule), c);
    var cmd := Run(schedule).commands[c];
    if cmd.verdict == Some(None) {
      AckCorrelation(schedule, c);
      ReturnedReferenceIsRequested(schedule, c, cmd.phase.outcome.delivery.result);
    }
  }

  /** An acknowledgement of another decision ends with that error and a closed session; if the session was
      still open, that error is its terminal error. */
  lemma MismatchEndsSession(schedule: seq<Step>, c: CommandId)
    requires CanConclude(Run(schedule), c) && Mismatched(Run(schedule).commands[c])
    ensures
      var s, t := Run(schedule), Run(schedule + [Conclude(c)]);
      && t.commands[c].verdict == Some(Some(DecisionMismatch))
      && t.session.closed && t.session.pending == map[]
      && t.session.err == if s.session.closed then s.session.err else Some(DecisionMismatch)
  {
    hide Invariant;
    Reachable(schedule);
    var ended := schedule + [Conclude(c)];
    assert ended[..|ended| - 1] == schedule;
    if Run(schedule).session.closed {
      ClosedPending(Run(schedule));
    }
  }

  /** Channel conservation. A registered command is either pending with an empty, never used
      channel, or exactly one result was ever sent to it; a closed session has settled them all;
      a caller still waiting on a settled channel finds its result there. */
  lemma ChannelConservation(schedule: seq<Step>, c: CommandId)
    requires c in Run(schedule).session.channels
    ensures
      var s := Run(schedule);
      var ch := s.session.channels[c];
      && c in s.commands
      && ch.sends <= 1
      && (ch.sends == 0 <==> (s.commands[c].key in s.session.pending && s.session.pending[s.commands[c].key] == c))
      && (s.session.closed ==> s.session.pending == map[] && ch.sends == 1)
      && (ch.sends == 1 && s.commands[c].phase.Waiting? ==> ch.buffer.Some?)
  {
    Reachable(schedule);
    assert Good(c, ViewOf(Run(schedule), c));
  }

  /** In every reachable state the mutex regions of the session may run: each pending channel is
      empty and waited on once, so no send under the mutex blocks. Done closes once, when the
      session closes. At most one command is writing. */
  lemma RegionsNeverBlock(schedule: seq<Step>)
    ensures Consistent(Run(schedule).session)
    ensures forall c, c' ::
              InPhase(Run(schedule), c, Writing) && InPhase(Run(schedule), c', Writing) ==> c == c'
  {
    Reachable(schedule);
    var s := Run(schedule);
    forall k | k in s.session.pending
      ensures s.session.pending[k] in s.session.channels
      ensures s.session.channels[s.session.pending[k]] == Channel(None, 0)
    {
      assert Good(s.session.pending[k], ViewOf(s, s.session.pending[k]));
    }
    forall c, c' | InPhase(s, c, Writing) && InPhase(s, c', Writing)
      ensures c == c'
    {
      assert Good(c, ViewOf(s, c)) && Good(c', ViewOf(s, c'));
    }
  }

  /** The first terminal error is permanent, and nothing is registered afterwards. */
  lemma {:induction false} ClosedForGood(schedule: seq<Step>, more: seq<Step>)
    requires Run(schedule).session.closed
    ensures
      var s, t := Run(schedule).session, Run(schedule + more).session;
      t.closed && t.err == s.err && t.pending == map[] && t.channels.Keys == s.channels.Keys
  {
    hide Do, Invariant;
    Reachable(schedule);
    if more == [] {
      assert schedule + more == schedule;
      ClosedPending(Run(schedule));
    } else {
      var init := more[..|more| - 1];
      ClosedForGood(schedule, init);
      assert (schedule + more)[..|schedule + more| - 1] == schedule + init;
      var s := Run(schedule + init);
      Reachable(schedule + init);
      ClosedStays(s, more[|more| - 1]);
    }
  }

  lemma ClosedPending(s: System)
    requires s.session.closed && Invariant(s)
    ensures s.session.pending == map[]
  {
  }

  lemma ClosedStays(s: System, step: Step)
    requires s.session.closed && Invariant(s)
    ensures Do(s, step).session.closed && Do(s, step).session.err == s.session.err
    ensures Do(s, step).session.pending == map[]
    ensures Do(s, step).session.channels.Keys == s.session.channels.Keys
  {
  }
}
