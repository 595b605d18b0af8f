/**
 The inbound half of the combo quoter protocol: which acknowledgement key, if
 any, a frame settles (clob/combo_quoter_events.go).
 */
module ComboInbound {
  import opened Common

  /** The acknowledgement kinds: "auth", "ACK_RFQ_QUOTE", "ACK_RFQ_QUOTE_CANCEL" and
      "ACK_RFQ_CONFIRMATION_RESPONSE" on the wire. */
  datatype AckKind = Auth | Quote | Cancel | Confirmation

  /** The `type` of an inbound frame. */
  datatype FrameType = Ack(kind: AckKind) | RfqError | OtherType(name: string)

  /** The `request_type` of an error frame. */
  datatype RequestType = Request(kind: AckKind) | OtherRequest(name: string)

  datatype Decision = Confirm | Decline | OtherDecision(name: string)

  datatype AckKey = AckKey(kind: AckKind, rfqId: string, quoteId: string)

  datatype Reference = Reference(rfqId: string, quoteId: string)

  datatype Error =
    | AuthenticationFailed(message: string)
    | CommandRejected(requestType: RequestType, rfqId: string, quoteId: string, code: string, errorId: string, message: string)
    | Uncorrelated
    | SessionClosed
    | CommandPending
    | DecisionMismatch
    | External(reason: string)

  const NO_DECISION := OtherDecision("")

  datatype AckResult = AckResult(reference: Reference, decision: Decision, err: Option<Error>)

  /** The fields of an inbound frame that the command half of the protocol reads. */
  datatype Frame = Frame(
    frameType: FrameType, success: Option<bool>, error: string, code: string, errorId: string,
    requestType: RequestType, rfqId: string, quoteId: string, decision: Decision)

  datatype Action =
    | Drop
    | Settle(key: AckKey, result: AckResult)
    | Terminate(err: Error)
    | Broadcast

  /** The acknowledgement key of a frame about a command of kind `kind`: a quote command
      does not know its quote ID, so its key leaves it out. */
  function KeyOf(kind: AckKind, f: Frame): AckKey {
    AckKey(kind, f.rfqId, if kind.Quote? then "" else f.quoteId)
  }

  /** What the read loop does with one frame. Everything that is not an acknowledgement,
      an error or an authentication reply leaves the pending commands alone. */
  function HandleInbound(f: Frame): Action {
    match f.frameType
    case Ack(Auth) =>
      if f.success.None? then Drop
      else
        var err := if f.success.value then None else Some(AuthenticationFailed(f.error));
        Settle(AckKey(Auth, "", ""), AckResult(Reference("", ""), NO_DECISION, err))
    case Ack(kind) =>
      if f.rfqId == "" || f.quoteId == "" then Drop
      else if kind.Confirmation? && f.decision.OtherDecision? then Drop
      else Settle(KeyOf(kind, f), AckResult(Reference(f.rfqId, f.quoteId), f.decision, None))
    case RfqError =>
      if f.code == "" || f.error == "" then Drop
      else if f.requestType.OtherRequest? || f.requestType.kind.Auth? then Drop
      else if f.rfqId == "" || (!f.requestType.kind.Quote? && f.quoteId == "") then Terminate(Uncorrelated)
      else
        var rejected := CommandRejected(f.requestType, f.rfqId, f.quoteId, f.code, f.errorId, f.error);
        Settle(KeyOf(f.requestType.kind, f), AckResult(Reference("", ""), NO_DECISION, Some(rejected)))
    case OtherType(_) => Broadcast
  }

  /** The keys under which the session's operations register a command. */
  predicate Issuable(key: AckKey) {
    match key.kind
    case Auth => key.rfqId == "" && key.quoteId == ""
    case Quote => key.rfqId != "" && key.quoteId == ""
    case _ => key.rfqId != "" && key.quoteId != ""
  }

  /** The promise made by the gateway about one reply: it is of the command's kind (or an error
      about it) and each identifier it carries is the command's own. A quote command does not know
      its quote ID yet, so the gateway chooses that one. */
  predicate Replies(key: AckKey, f: Frame) {
    && (f.frameType == Ack(key.kind) || (f.frameType == RfqError && f.requestType == Request(key.kind)))
    && (key.kind.Auth? || f.rfqId == key.rfqId || f.rfqId == "")
    && (key.kind.Auth? || key.kind.Quote? || f.quoteId == key.quoteId || f.quoteId == "")
  }

  /** A reply with every field that its kind needs. */
  predicate Complete(key: AckKey, f: Frame) {
    if f.frameType.Ack? then
      if key.kind.Auth? then f.success.Some?
      else f.rfqId != "" && f.quoteId != "" && (key.kind.Confirmation? ==> !f.decision.OtherDecision?)
    else
      f.code != "" && f.error != "" && !key.kind.Auth? && f.rfqId != "" && (key.kind.Quote? || f.quoteId != "")
  }

  /** A reply settles the command it answers, exactly when it is complete, and no other command. It reports
      an error exactly when it is an error frame or refuses the authentication. */
  lemma ReplySettlesItsCommand(key: AckKey, f: Frame)
    requires Issuable(key) && Replies(key, f)
    ensures !HandleInbound(f).Broadcast?
    ensures HandleInbound(f).Settle? <==> Complete(key, f)
    ensures HandleInbound(f).Settle? ==>
              && HandleInbound(f).key == key
              && (HandleInbound(f).result.err.Some? <==> f.frameType.RfqError? || (key.kind.Auth? && f.success == Some(false)))
  {
  }

  /** What a complete reply reports. An acknowledgement carries the RFQ, the quote and the decision of its frame,
      an error frame every field of the rejection, an authentication reply its success or its reason. */
  lemma ReplyCarriesItsFrame(key: AckKey, f: Frame)
    requires Issuable(key) && Replies(key, f) && Complete(key, f)
    ensures HandleInbound(f).Settle?
    ensures
      var result := HandleInbound(f).result;
      && (f.frameType.Ack? && !key.kind.Auth? ==>
            result.reference == Reference(f.rfqId, f.quoteId) && result.decision == f.decision && result.err == None)
      && (f.frameType.RfqError? ==>
            && result.reference == Reference("", "")
            && result.err == Some(CommandRejected(Request(key.kind), f.rfqId, f.quoteId, f.code, f.errorId, f.error)))
      && (key.kind.Auth? ==>
            result.err == if f.success == Some(true) then None else Some(AuthenticationFailed(f.error)))
  {
  }

  /** An error about a known command that does not name it ends the session; no other frame does. */
  lemma OnlyUncorrelatedTerminates(f: Frame)
    ensures HandleInbound(f).Terminate? <==>
              && f.frameType.RfqError? && f.code != "" && f.error != ""
              && f.requestType.Request? && !f.requestType.kind.Auth?
              && (f.rfqId == "" || (!f.requestType.kind.Quote? && f.quoteId == ""))
    ensures HandleInbound(f).Terminate? ==> HandleInbound(f).err == Uncorrelated
  {
  }

  /** A successful acknowledgement names exactly the request that its key was built from. */
  lemma AcknowledgementNamesItsRequest(key: AckKey, result: AckResult, f: Frame)
    requires HandleInbound(f) == Settle(key, result) && result.err.None? && !key.kind.Auth?
    ensures result.reference.rfqId == key.rfqId && result.reference.quoteId != ""
    ensures !key.kind.Quote? ==> result.reference.quoteId == key.quoteId
    ensures key.kind.Confirmation? ==> !result.decision.OtherDecision?
  {
  }
}

/**
 One quoter session: the pending map, the terminal state and the one-slot result
 channels, updated under the session mutex (clob/combo_quoter_session.go).
 */
module ComboSession {
  import opened Common
  import opened ComboInbound

  /** One call of `command`. It also names the result channel that call creates. */
  type CommandId = nat

  /** What travels through a result channel. `command` records whose reply it was; no code reads it. */
  datatype Delivery =
    | FromGateway(command: CommandId, result: AckResult)
    | FromFinish(err: Error)

  /** A channel of capacity one. `sends` counts every send over its lifetime. */
  datatype Channel = Channel(buffer: Option<Delivery>, sends: nat)

  datatype Session = Session(
    closed: bool,
    err: Option<Error>,
    pending: map<AckKey, CommandId>,
    channels: map<CommandId, Channel>,
    doneCloses: nat)

  const OPENED := Session(false, None, map[], map[], 0)

  datatype Registration = Registered | Refused(err: Error)

  function PendingError(err: Option<Error>): Error {
    if err.None? then SessionClosed else err.value
  }

  function Sent(ch: Channel, d: Delivery): Channel {
    Channel(Some(d), ch.sends + 1)
  }

  /** Every pending command waits on its own, still empty, channel. */
  ghost predicate Consistent(s: Session) {
    && (s.closed ==> s.pending == map[] && s.doneCloses == 1)
    && (!s.closed ==> s.err.None? && s.doneCloses == 0)
    && (forall k :: k in s.pending ==> s.pending[k] in s.channels && s.channels[s.pending[k]] == Channel(None, 0))
    && (forall k, k' :: k in s.pending && k' in s.pending && s.pending[k] == s.pending[k'] ==> k == k')
  }

  function Registering(s: Session, key: AckKey, c: CommandId): (Session, Registration) {
    if s.closed then (s, Refused(SessionClosed))
    else if key in s.pending then (s, Refused(CommandPending))
    else (s.(pending := s.pending[key := c], channels := s.channels[c := Channel(None, 0)]), Registered)
  }

  function Resolving(s: Session, key: AckKey, d: Delivery): Session {
    if key in s.pending && s.pending[key] in s.channels then
      s.(pending := s.pending - {key},
         channels := s.channels[s.pending[key] := Sent(s.channels[s.pending[key]], d)])
    else s
  }

  /** The channels after `d` was sent to each of `targets`. */
  function Told(channels: map<CommandId, Channel>, targets: set<CommandId>, d: Delivery): map<CommandId, Channel> {
    map c | c in channels :: if c in targets then Sent(channels[c], d) else channels[c]
  }

  function Finishing(s: Session, err: Option<Error>): Session {
    if s.closed then s
    else Session(true, err, map[], Told(s.channels, s.pending.Values, FromFinish(PendingError(err))), s.doneCloses + 1)
  }

  /** What responding to a confirmation makes of an acknowledgement: its decision has to be the one asked for. */
  function Concluding(decision: Decision, result: AckResult): Option<Error> {
    if result.err.None? && result.decision != decision then Some(DecisionMismatch) else result.err
  }

  /** The mutable session. Each method is one region under the session mutex. */
  class ComboRFQSession {
    var closed: bool
    var err: Option<Error>
    var pending: map<AckKey, CommandId>
    var channels: map<CommandId, Channel>
    var doneCloses: nat

    ghost function View(): Session
      reads this
    {
      Session(closed, err, pending, channels, doneCloses)
    }

    constructor ()
      ensures View() == OPENED && Consistent(View())
    {
      closed, err, pending, channels, doneCloses := false, None, map[], map[], 0;
    }

    /** A send never blocks: the one slot has to be free, and every caller proves it is. */
    method Send(c: CommandId, d: Delivery)
      requires c in channels && channels[c].buffer.None?
      modifies this`channels
      ensures channels == old(channels)[c := Sent(old(channels[c]), d)]
    {
      channels := channels[c := Channel(Some(d), channels[c].sends + 1)];
    }

    /** The registration region of `command`. */
    method Register(key: AckKey, c: CommandId) returns (r: Registration)
      requires Consistent(View()) && c !in channels
      modifies this
      ensures (View(), r) == Registering(old(View()), key, c)
      ensures Consistent(View())
    {
      if closed {
        return Refused(SessionClosed);
      }
      if key in pending {
        return Refused(CommandPending);
      }
      channels := channels[c := Channel(None, 0)];
      pending := pending[key := c];
      r := Registered;
    }

    method Resolve(key: AckKey, d: Delivery)
      requires Consistent(View())
      modifies this
      ensures View() == Resolving(old(View()), key, d)
      ensures Consistent(View())
    {
      if key in pending {
        var c := pending[key];
        pending := pending - {key};
        Send(c, d);
      }
    }

    /** The end of RespondToConfirmation: an acknowledgement of another decision ends the session. */
    method Conclude(decision: Decision, result: AckResult) returns (outcome: Option<Error>)
      requires Consistent(View())
      modifies this
      ensures Consistent(View()) && outcome == Concluding(decision, result)
      ensures outcome.None? ==> result.decision == decision
      ensures View() == if result.err.None? && result.decision != decision then Finishing(old(View()), Some(DecisionMismatch))
                        else old(View())
    {
      outcome := result.err;
      if outcome.None? && result.decision != decision {
        outcome := Some(DecisionMismatch);
        Finish(outcome);
      }
    }

    method Finish(reason: Option<Error>)
      requires Consistent(View())
      modifies this
      ensures View() == Finishing(old(View()), reason)
      ensures Consistent(View())
    {
      if closed {
        return;
      }
      closed, err := true, reason;
      var d := FromFinish(PendingError(reason));
      ghost var all, before := pending, channels;
      ghost var told: set<CommandId> := {};
      while pending != map[]
        invariant closed && err == reason && doneCloses == old(doneCloses)
        invariant forall k :: k in pending ==> k in all && pending[k] == all[k] && pending[k] !in told
        invariant forall k :: k in all && k !in pending ==> all[k] in told
        invariant told <= all.Values
        invariant channels == Told(before, told, d)
        decreases pending.Keys
      {
        var key :| key in pending;
        Send(pending[key], d);
        told := told + {pending[key]};
        pending := pending - {key};
      }
      assert told == all.Values;
      doneCloses := doneCloses + 1;
    }
  }
}
