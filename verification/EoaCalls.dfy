/**
 Sequences of wallet calls from an externally owned account (clob/wallet_transactions.go).
 Each call must be mined successfully before the next one is sent.
 */
module EoaCalls {
  import opened Common

  type Hash = nat

  const ZERO_HASH: Hash := 0

  datatype Call = Call(to: nat, value: Option<int>, data: seq<nat>)

  datatype Receipt = Receipt(hash: Hash, ok: bool)

  /** An attempt to send; without a hash an external wallet may or may not have sent it. */
  datatype Submission = Submission(hash: Option<Hash>, uncertain: bool, receipt: Option<Receipt>)

  datatype Attempt = Attempt(call: Call, submission: Submission)

  /** A failed send either never left, or retains its submission. */
  datatype SendFailure = NotSent | Retained(submission: Submission)

  datatype Sent = Sent(hash: Hash, err: Option<SendFailure>)

  datatype Waited = Waited(receipt: Option<Receipt>, err: Option<string>)

  datatype Event = Broadcast(call: Call, sent: Sent) | Confirm(call: Call, hash: Hash, waited: Waited)

  /** A send without error names its transaction. */
  predicate SaneSend(r: Sent) {
    r.err.None? ==> r.hash != ZERO_HASH
  }

  /** A wait without error has a receipt of success. */
  predicate SuccessConfirmed(r: Waited) {
    r.err.None? ==> r.receipt.Some? && r.receipt.value.ok
  }

  /** What a node answers: without error there is a receipt, of either status and of any transaction. */
  predicate SaneAnswer(r: Waited) {
    r.err.None? ==> r.receipt.Some?
  }

  /** The signer and the chain, as a script of answers, with a log of what was asked of them. A signer that
      completes transactions itself may answer anything; otherwise a node answers. */
  class Wallet {
    const completes: bool
    var sends: seq<Sent>
    var waits: seq<Waited>
    var log: seq<Event>

    ghost predicate Valid()
      reads this
    {
      && (forall i :: 0 <= i < |sends| ==> SaneSend(sends[i]))
      && (!completes ==> forall i :: 0 <= i < |waits| ==> SaneAnswer(waits[i]))
    }

    constructor (completes: bool, sends: seq<Sent>, waits: seq<Waited>)
      requires forall i :: 0 <= i < |sends| ==> SaneSend(sends[i])
      requires !completes ==> forall i :: 0 <= i < |waits| ==> SaneAnswer(waits[i])
      ensures Valid() && log == []
    {
      this.completes, this.sends, this.waits, log := completes, sends, waits, [];
    }

    /** While the wallet prompts, the caller's own list may change. */
    method BroadcastWalletCall(call: Call, calls: array<Call>) returns (r: Sent)
      requires Valid()
      modifies this, calls
      ensures Valid() && SaneSend(r) && log == old(log) + [Broadcast(call, r)]
      ensures old(sends) != [] ==> r == old(sends)[0]
    {
      r := Sent(ZERO_HASH, Some(NotSent));
      if sends != [] {
        r, sends := sends[0], sends[1..];
      }
      log := log + [Broadcast(call, r)];
    }

    /** Waits and checks the answer: a wait ends without error only with a receipt of success, and from a node
        only with a receipt of the very transaction. A reverted transaction keeps its receipt with the error. */
    method WaitWalletCallReceipt(call: Call, hash: Hash) returns (r: Waited)
      requires Valid()
      modifies this
      ensures Valid() && SuccessConfirmed(r) && log == old(log) + [Confirm(call, hash, r)]
      ensures hash == ZERO_HASH ==> r.err.Some?
      ensures !completes && r.receipt.Some? ==> r.receipt.value.hash == hash
      ensures hash != ZERO_HASH && old(waits) != [] ==>
                var answer := old(waits)[0];
                answer.err.None? && answer.receipt.Some? && answer.receipt.value.ok ==>
                  completes || answer.receipt.value.hash == hash ==> r.err.None? && r.receipt == answer.receipt
    {
      var answer := Waited(None, Some("canceled"));
      if hash != ZERO_HASH && waits != [] {
        answer, waits := waits[0], waits[1..];
      }
      r := if completes then CheckCompletion(answer) else CheckReceipt(answer, hash);
      log := log + [Confirm(call, hash, r)];
    }
  }

  /** The checks on what a completing signer answers: without a receipt there is an error, a revert is an error,
      and a receipt survives errors. */
  function CheckCompletion(answer: Waited): (r: Waited)
    ensures SuccessConfirmed(r) && r.receipt == answer.receipt && (answer.err.Some? ==> r.err.Some?)
    ensures answer.err.None? && answer.receipt.Some? && answer.receipt.value.ok ==> r.err.None?
  {
    if answer.receipt.None? then Waited(None, Some("invalid completion"))
    else if !answer.receipt.value.ok then Waited(answer.receipt, Some("reverted"))
    else answer
  }

  /** The checks on what a node answers: an error or a receipt of another transaction leaves no receipt, and a
      revert is an error that keeps it. */
  function CheckReceipt(answer: Waited, hash: Hash): (r: Waited)
    requires SaneAnswer(answer)
    ensures SuccessConfirmed(r) && (r.receipt.Some? ==> r.receipt == answer.receipt && r.receipt.value.hash == hash)
    ensures answer.err.Some? ==> r.err.Some?
    ensures answer.err.None? && answer.receipt.value.hash == hash ==>
              r.receipt == answer.receipt && (r.err.None? <==> answer.receipt.value.ok)
  {
    if answer.err.Some? then Waited(None, answer.err)
    else if answer.receipt.value.hash != hash then Waited(None, Some("invalid receipt identity"))
    else if !answer.receipt.value.ok then Waited(answer.receipt, Some("reverted"))
    else answer
  }

  /* What the log of an execution must look like */

  predicate Succeeded(e: Event) {
    match e
    case Broadcast(_, sent) => sent.err.None?
    case Confirm(_, _, waited) => waited.err.None? && waited.receipt.Some? && waited.receipt.value.ok
  }

  /** Calls are sent in order, each call but the last is confirmed by its own hash before the next is sent,
      and nothing follows a failure. */
  ghost predicate InOrder(log: seq<Event>, calls: seq<Call>) {
    && (log != [] ==> |log| < 2 * |calls|)
    && forall i :: 0 <= i < |log| ==> EventInOrder(log, calls, i)
  }

  ghost predicate EventInOrder(log: seq<Event>, calls: seq<Call>, i: nat)
    requires i < |log| < 2 * |calls|
  {
    && log[i].call == calls[i / 2]
    && log[i].Broadcast? == (i % 2 == 0)
    && (log[i].Broadcast? ==> SaneSend(log[i].sent))
    && (i > 0 ==> Succeeded(log[i - 1]))
    && (log[i].Confirm? ==> log[i - 1].Broadcast? && log[i].hash == log[i - 1].sent.hash)
  }

  /** A send counts as attempted when it has a hash or retains a submission. */
  function Attempted(sent: Sent): Option<Submission> {
    if sent.err.Some? && sent.err.value.Retained? then Some(sent.err.value.submission)
    else if sent.hash != ZERO_HASH then Some(Submission(Some(sent.hash), false, None))
    else None
  }

  /** The attempts that a log stands for: one for every attempted send, with the receipt of its confirmation. */
  function Attempts(log: seq<Event>): seq<Attempt> {
    if log == [] then [] else After(Attempts(log[..|log| - 1]), log[|log| - 1])
  }

  function After(attempts: seq<Attempt>, e: Event): seq<Attempt> {
    match e
    case Broadcast(call, sent) =>
      attempts + (if Attempted(sent).Some? then [Attempt(call, Attempted(sent).value)] else [])
    case Confirm(_, _, waited) => Confirmed(attempts, waited.receipt)
  }

  function Confirmed(attempts: seq<Attempt>, receipt: Option<Receipt>): seq<Attempt> {
    if attempts == [] then attempts
    else
      var last := attempts[|attempts| - 1];
      attempts[..|attempts| - 1] + [last.(submission := last.submission.(receipt := receipt))]
  }

  lemma InOrderPrefix(log: seq<Event>, calls: seq<Call>)
    requires log != [] && InOrder(log, calls)
    ensures InOrder(log[..|log| - 1], calls)
    ensures forall i :: 0 <= i < |log| - 1 ==> Succeeded(log[i])
  {
    var init := log[..|log| - 1];
    forall i | 0 <= i < |init|
      ensures EventInOrder(init, calls, i) && Succeeded(log[i])
    {
      assert EventInOrder(log, calls, i) && EventInOrder(log, calls, i + 1);
    }
  }

  ghost predicate Prefix(attempts: seq<Attempt>, calls: seq<Call>) {
    |attempts| <= |calls| && forall k :: 0 <= k < |attempts| ==> attempts[k].call == calls[k]
  }

  /** In an ordered log the attempts are a prefix of the calls, in order; when every event succeeded there is
      one for every call sent. */
  lemma {:induction false} AttemptsArePrefix(log: seq<Event>, calls: seq<Call>)
    requires InOrder(log, calls)
    ensures Prefix(Attempts(log), calls)
    ensures 2 * |Attempts(log)| <= |log| + 1
    ensures (forall i :: 0 <= i < |log| ==> Succeeded(log[i])) ==> |Attempts(log)| == (|log| + 1) / 2
  {
    hide InOrder, Prefix, After, Succeeded;
    if log == [] {
      NoAttempts(calls);
    } else {
      InOrderPrefix(log, calls);
      AttemptsArePrefix(log[..|log| - 1], calls);
      NextAttempt(log, calls, Attempts(log[..|log| - 1]));
    }
  }

  lemma NoAttempts(calls: seq<Call>)
    ensures Prefix([], calls)
  {
  }

  /** The last event of an ordered log adds the attempt of its own call, if any. */
  lemma NextAttempt(log: seq<Event>, calls: seq<Call>, before: seq<Attempt>)
    requires log != [] && InOrder(log, calls) && Prefix(before, calls) && |before| == |log| / 2
    ensures
      var attempts, e := After(before, log[|log| - 1]), log[|log| - 1];
      && Prefix(attempts, calls) && 2 * |attempts| <= |log| + 1
      && (Succeeded(e) ==> |attempts| == (|log| + 1) / 2)
  {
    assert EventInOrder(log, calls, |log| - 1);
  }

  /** A send of which nothing is known to have left: neither a hash nor a retained submission. */
  predicate NeverLeft(sent: Sent) {
    sent.hash == ZERO_HASH && sent.err == Some(NotSent)
  }

  /** What attempt `k` records: a sent call has its hash and, once waited for, the receipt that the wait gave;
      a failed send its retained submission, or the hash alone. */
  ghost predicate Records(a: Attempt, log: seq<Event>, k: nat)
    requires 2 * k < |log| && log[2 * k].Broadcast? && (2 * k + 1 < |log| ==> log[2 * k + 1].Confirm?)
  {
    var sent := log[2 * k].sent;
    && a.call == log[2 * k].call
    && (sent.err.None? ==>
          a.submission == Submission(Some(sent.hash), false,
                                     if 2 * k + 1 < |log| then log[2 * k + 1].waited.receipt else None))
    && (sent.err.Some? && sent.err.value.Retained? ==> a.submission == sent.err.value.submission)
    && (sent.err == Some(NotSent) ==> a.submission == Submission(Some(sent.hash), false, None))
  }

  ghost predicate RecordAt(a: Attempt, log: seq<Event>, k: nat) {
    && 2 * k < |log| && log[2 * k].Broadcast? && (2 * k + 1 < |log| ==> log[2 * k + 1].Confirm?)
    && Records(a, log, k)
  }

  /** Every call that was sent is recorded, except a last one that never left; and each record says what the
      wallet answered. */
  lemma {:induction false} AttemptsRecord(log: seq<Event>, calls: seq<Call>)
    requires InOrder(log, calls)
    ensures |Attempts(log)| ==
            if log != [] && log[|log| - 1].Broadcast? && NeverLeft(log[|log| - 1].sent) then |log| / 2 else (|log| + 1) / 2
    ensures forall k :: 0 <= k < |Attempts(log)| ==> RecordAt(Attempts(log)[k], log, k)
  {
    hide InOrder, Succeeded, RecordAt;
    if log != [] {
      var n := |log| - 1;
      InOrderPrefix(log, calls);
      AttemptsRecord(log[..n], calls);
      LastInOrder(log, calls);
      if n > 0 {
        SucceededLeft(log[n - 1]);
      }
      forall k | 0 <= k < |Attempts(log)|
        ensures RecordAt(Attempts(log)[k], log, k)
      {
        RecordKept(log, Attempts(log[..n]), k);
      }
    }
  }

  lemma SucceededLeft(e: Event)
    requires Succeeded(e)
    ensures e.Broadcast? ==> !NeverLeft(e.sent)
  {
  }

  lemma RecordKept(log: seq<Event>, before: seq<Attempt>, k: nat)
    requires log != [] && k < |After(before, log[|log| - 1])| && |before| == |log| / 2
    requires forall j :: 0 <= j < |before| ==> RecordAt(before[j], log[..|log| - 1], j)
    requires
      var n := |log| - 1;
      && log[n].Broadcast? == (n % 2 == 0) && (log[n].Broadcast? ==> SaneSend(log[n].sent))
      && (n > 0 ==> Succeeded(log[n - 1]) && log[n - 1].Broadcast? == (n % 2 == 1))
    ensures RecordAt(After(before, log[|log| - 1])[k], log, k)
  {
    hide Records, Succeeded, Attempted;
    var n := |log| - 1;
    if 2 * k + 1 < n {
      assert RecordAt(before[k], log[..n], k);
      RecordStays(before[k], log, k);
    } else if 2 * k == n {
      RecordNew(log, before, k);
    } else {
      assert RecordAt(before[k], log[..n], k);
      RecordConfirmed(log, before, k);
    }
  }

  lemma LastInOrder(log: seq<Event>, calls: seq<Call>)
    requires log != [] && InOrder(log, calls)
    ensures
      var n := |log| - 1;
      && log[n].Broadcast? == (n % 2 == 0) && (log[n].Broadcast? ==> SaneSend(log[n].sent))
      && (n > 0 ==> Succeeded(log[n - 1]) && log[n - 1].Broadcast? == (n % 2 == 1))
  {
    var n := |log| - 1;
    assert EventInOrder(log, calls, n);
    if n > 0 {
      assert EventInOrder(log, calls, n - 1);
    }
  }

  lemma RecordStays(a: Attempt, log: seq<Event>, k: nat)
    requires 2 * k + 1 < |log| - 1 && log[2 * k].Broadcast? && log[2 * k + 1].Confirm?
    requires Records(a, log[..|log| - 1], k)
    ensures Records(a, log, k)
  {
  }

  lemma RecordNew(log: seq<Event>, before: seq<Attempt>, k: nat)
    requires |log| == 2 * k + 1 && log[2 * k].Broadcast? && SaneSend(log[2 * k].sent) && |before| == k
    requires k < |After(before, log[2 * k])|
    ensures Records(After(before, log[2 * k])[k], log, k)
  {
  }

  lemma RecordConfirmed(log: seq<Event>, before: seq<Attempt>, k: nat)
    requires |log| == 2 * k + 2 && log[2 * k].Broadcast? && log[2 * k + 1].Confirm? && |before| == k + 1
    requires Succeeded(log[2 * k]) && Records(before[k], log[..2 * k + 1], k)
    ensures |After(before, log[2 * k + 1])| == k + 1 && Records(After(before, log[2 * k + 1])[k], log, k)
  {
  }

  ghost predicate AllSucceeded(log: seq<Event>) {
    forall i :: 0 <= i < |log| ==> Succeeded(log[i])
  }

  /** One more event, after nothing has failed. */
  ghost predicate Next(log: seq<Event>, calls: seq<Call>, e: Event) {
    && |log| + 1 < 2 * |calls| && e.call == calls[|log| / 2]
    && e.Broadcast? == (|log| % 2 == 0)
    && (e.Broadcast? ==> SaneSend(e.sent))
    && (e.Confirm? ==> log[|log| - 1].Broadcast? && e.hash == log[|log| - 1].sent.hash)
  }

  lemma InOrderExtended(log: seq<Event>, calls: seq<Call>, e: Event)
    requires InOrder(log, calls) && AllSucceeded(log) && Next(log, calls, e)
    ensures InOrder(log + [e], calls)
    ensures Succeeded(e) <==> AllSucceeded(log + [e])
    ensures Attempts(log + [e]) == After(Attempts(log), e)
  {
    var more := log + [e];
    assert more[..|more| - 1] == log && more[|log|] == e;
    forall i | 0 <= i < |more|
      ensures EventInOrder(more, calls, i)
    {
      if i < |log| {
        assert EventInOrder(log, calls, i);
      }
    }
  }

  /* The recorded handle */

  class WalletTransactionHandle {
    var transactionHash: Hash
    var submissions: seq<Submission>
    var attempts: seq<Attempt>
    const requestedCalls: nat
    ghost const intent: seq<Call>

    /** The attempts are in-order prefix of the intended calls, and the public records mirror them. */
    ghost predicate Valid()
      reads this
    {
      requestedCalls == |intent| && Prefix(attempts, intent) && Mirrored()
    }

    ghost predicate Mirrored()
      reads this
    {
      |submissions| == |attempts| && forall i :: 0 <= i < |attempts| ==> submissions[i] == attempts[i].submission
    }

    constructor (prepared: seq<Call>)
      ensures attempts == [] && intent == prepared && requestedCalls == |prepared| && Mirrored()
    {
      transactionHash, submissions, attempts := ZERO_HASH, [], [];
      requestedCalls, intent := |prepared|, prepared;
    }

    method Record(call: Call, sent: Sent)
      requires Mirrored()
      modifies this
      ensures Mirrored()
      ensures attempts == old(attempts) + (if Attempted(sent).Some? then [Attempt(call, Attempted(sent).value)] else [])
      ensures transactionHash == if sent.hash != ZERO_HASH then sent.hash else old(transactionHash)
    {
      var submission := Submission(None, false, None);
      var retained := sent.err.Some? && sent.err.value.Retained?;
      var attempted := retained || sent.hash != ZERO_HASH;
      if retained {
        submission := sent.err.value.submission;
      } else if sent.hash != ZERO_HASH {
        submission := submission.(hash := Some(sent.hash));
      }
      if attempted {
        attempts := attempts + [Attempt(call, submission)];
        submissions := submissions + [submission];
      }
      if sent.hash != ZERO_HASH {
        transactionHash := sent.hash;
      }
    }

    method Confirm(i: nat, receipt: Option<Receipt>)
      requires Mirrored() && i + 1 == |attempts|
      modifies this`attempts, this`submissions
      ensures Mirrored() && attempts == Confirmed(old(attempts), receipt)
    {
      attempts := attempts[i := attempts[i].(submission := attempts[i].submission.(receipt := receipt))];
      submissions := submissions[i := submissions[i].(receipt := receipt)];
    }
  }

  datatype ExecuteError = NoCalls | InvalidValue | SendError(call: nat) | ConfirmError(call: nat)

  predicate ValidValue(call: Call) {
    call.value.Some? && 0 <= call.value.value < UINT256_END
  }

  /** Checks and copies the whole intent before anything is sent. */
  method Prepare(calls: array<Call>) returns (prepared: Option<seq<Call>>)
    ensures prepared.Some? <==> forall i :: 0 <= i < calls.Length ==> ValidValue(calls[i])
    ensures prepared.Some? ==> prepared.value == calls[..]
  {
    var copied: seq<Call> := [];
    for i := 0 to calls.Length
      invariant copied == calls[..i]
      invariant forall k :: 0 <= k < i ==> ValidValue(calls[k])
    {
      if !ValidValue(calls[i]) {
        return None;
      }
      copied := copied + [calls[i]];
    }
    prepared := Some(copied);
  }

  /** The log so far is in order and the handle holds its attempts. */
  ghost predicate Tracks(h: WalletTransactionHandle, log: seq<Event>, prepared: seq<Call>)
    reads h
  {
    InOrder(log, prepared) && h.attempts == Attempts(log) && h.Valid() && h.intent == prepared
  }

  lemma Appended(base: seq<Event>, log: seq<Event>, e: Event)
    ensures base + log + [e] == base + (log + [e])
  {
  }

  /** One round: sends call `i` and, unless it is the last, waits for its receipt. */
  method SendAndConfirm(
    wallet: Wallet, calls: array<Call>, h: WalletTransactionHandle, prepared: seq<Call>, i: nat,
    ghost base: seq<Event>, ghost before: seq<Event>)
    returns (err: Option<ExecuteError>, ghost log: seq<Event>)
    requires wallet.Valid() && wallet.log == base + before && i < |prepared|
    requires Tracks(h, before, prepared) && AllSucceeded(before) && |before| == 2 * i
    modifies wallet, calls, h
    ensures wallet.Valid() && wallet.log == base + log && Tracks(h, log, prepared)
    ensures 2 * i < |log| <= 2 * i + 2
    ensures err.None? <==> AllSucceeded(log) && |log| == if i + 1 == |prepared| then 2 * i + 1 else 2 * i + 2
  {
    hide InOrder, Attempts;
    var call := prepared[i];
    var sent := wallet.BroadcastWalletCall(call, calls);
    InOrderExtended(before, prepared, Broadcast(call, sent));
    Appended(base, before, Broadcast(call, sent));
    log := before + [Broadcast(call, sent)];
    h.Record(call, sent);
    AttemptsArePrefix(log, prepared);
    if sent.err.Some? {
      return Some(SendError(i + 1)), log;
    }
    if i + 1 < |prepared| {
      var waited := wallet.WaitWalletCallReceipt(call, sent.hash);
      InOrderExtended(log, prepared, Event.Confirm(call, sent.hash, waited));
      Appended(base, log, Event.Confirm(call, sent.hash, waited));
      log := log + [Event.Confirm(call, sent.hash, waited)];
      h.Confirm(i, waited.receipt);
      AttemptsArePrefix(log, prepared);
      if waited.err.Some? {
        return Some(ConfirmError(i + 1)), log;
      }
    }
    return None, log;
  }

  /** Sends and confirms the calls in order. Whatever the wallet answers, and whatever becomes of the caller's
      list meanwhile, the log is in order, the handle holds the attempts of that log, and the execution
      succeeds exactly when every call was sent and all but the last were confirmed. */
  method ExecuteEOACalls(wallet: Wallet, calls: array<Call>)
    returns (handle: WalletTransactionHandle?, err: Option<ExecuteError>, ghost log: seq<Event>)
    requires wallet.Valid()
    modifies wallet, calls
    ensures wallet.Valid() && wallet.log == old(wallet.log) + log
    ensures InOrder(log, old(calls[..]))
    ensures handle == null <==> Attempts(log) == []
    ensures handle != null ==>
              && fresh(handle) && handle.Valid()
              && handle.attempts == Attempts(log) && handle.intent == old(calls[..])
    ensures err.None? <==> |log| == 2 * calls.Length - 1 && AllSucceeded(log)
    ensures (exists i :: 0 <= i < calls.Length && !ValidValue(old(calls[..])[i])) ==> log == []
  {
    log, handle := [], null;
    if calls.Length == 0 {
      return null, Some(NoCalls), log;
    }
    var checked := Prepare(calls);
    if checked.None? {
      return null, Some(InvalidValue), log;
    }
    var prepared := checked.value;
    var h := new WalletTransactionHandle(prepared);
    for i := 0 to |prepared|
      invariant wallet.Valid() && wallet.log == old(wallet.log) + log
      invariant fresh(h) && Tracks(h, log, prepared)
      invariant AllSucceeded(log) && |log| == if i == |prepared| then 2 * i - 1 else 2 * i
    {
      err, log := SendAndConfirm(wallet, calls, h, prepared, i, old(wallet.log), log);
      if err.Some? {
        handle := if |h.submissions| == 0 then null else h;
        return;
      }
    }
    AttemptsArePrefix(log, prepared);
    return h, None, log;
  }

  datatype WaitError = NothingToWaitFor | UnknownHash(submission: Submission) | WaitFailed(cause: string) | Incomplete

  /** Attempt `i` was checked with its own call and hash. */
  ghost predicate ChecksAttempt(e: Event, attempt: Attempt) {
    e.Confirm? && e.call == attempt.call && Some(e.hash) == attempt.submission.hash
  }

  /** The attempts of a handle are checked in order, and nothing is checked after a failure. */
  ghost predicate Checked(log: seq<Event>, attempts: seq<Attempt>) {
    && |log| <= |attempts|
    && (forall i :: 0 <= i < |log| ==> ChecksAttempt(log[i], attempts[i]))
    && (forall i :: 0 <= i < |log| - 1 ==> Succeeded(log[i]))
  }

  /** The receipts in order: each check leaves its own or, failing without one, the receipt seen earlier; only a
      failed last check can leave none. */
  ghost predicate Collected(receipts: seq<Receipt>, log: seq<Event>, attempts: seq<Attempt>)
    requires Checked(log, attempts)
  {
    && |log| - 1 <= |receipts| <= |log|
    && forall i :: 0 <= i < |log| ==>
         if log[i].waited.receipt.Some? then i < |receipts| && receipts[i] == log[i].waited.receipt.value
         else if attempts[i].submission.receipt.Some? then
           i < |receipts| && receipts[i] == attempts[i].submission.receipt.value
         else i == |receipts|
  }

  /** Reconciles the attempts of a handle. It succeeds exactly when every requested call was attempted and
      every attempt is confirmed now, and then there is a receipt of success for every requested call. */
  method WaitReceipts(h: WalletTransactionHandle?, wallet: Wallet)
    returns (receipts: seq<Receipt>, err: Option<WaitError>, ghost log: seq<Event>)
    requires wallet.Valid() && (h != null ==> h.Valid())
    modifies wallet
    ensures wallet.Valid() && wallet.log == old(wallet.log) + log
    ensures h == null ==> err.Some? && receipts == [] && log == []
    ensures h != null ==> Checked(log, h.attempts) && Collected(receipts, log, h.attempts)
    ensures err.None? <==>
              h != null && 0 < |h.intent| == |h.attempts| == |log| && AllSucceeded(log)
    ensures err.None? ==>
              && |receipts| == |h.intent|
              && forall i :: 0 <= i < |h.intent| ==>
                   log[i].Confirm? && log[i].call == h.intent[i] && log[i].waited.receipt == Some(receipts[i]) && receipts[i].ok
  {
    receipts, log := [], [];
    if h == null || |h.attempts| == 0 || h.requestedCalls < |h.attempts| {
      return [], Some(NothingToWaitFor), log;
    }
    for i := 0 to |h.attempts|
      invariant wallet.Valid() && wallet.log == old(wallet.log) + log
      invariant |log| == |receipts| == i && AllSucceeded(log)
      invariant Checked(log, h.attempts) && Collected(receipts, log, h.attempts)
    {
      var attempt := h.attempts[i];
      if attempt.submission.hash.None? {
        return receipts, Some(UnknownHash(attempt.submission)), log;
      }
      var waited := wallet.WaitWalletCallReceipt(attempt.call, attempt.submission.hash.value);
      var e := Event.Confirm(attempt.call, attempt.submission.hash.value, waited);
      Appended(old(wallet.log), log, e);
      log := log + [e];
      var receipt := waited.receipt;
      if receipt.None? && waited.err.Some? {
        receipt := attempt.submission.receipt;
      }
      if receipt.Some? {
        receipts := receipts + [receipt.value];
      }
      if waited.err.Some? {
        assert !Succeeded(log[i]);
        return receipts, Some(WaitFailed(waited.err.value)), log;
      }
    }
    if |h.attempts| != h.requestedCalls {
      return receipts, Some(Incomplete), log;
    }
    AllConfirmed(receipts, log, h.attempts, h.intent);
    return receipts, None, log;
  }

  lemma AllConfirmed(receipts: seq<Receipt>, log: seq<Event>, attempts: seq<Attempt>, intent: seq<Call>)
    requires Prefix(attempts, intent) && |intent| == |attempts| == |log| == |receipts|
    requires Checked(log, attempts) && Collected(receipts, log, attempts) && AllSucceeded(log)
    ensures forall i :: 0 <= i < |intent| ==>
              log[i].Confirm? && log[i].call == intent[i] && log[i].waited.receipt == Some(receipts[i]) && receipts[i].ok
  {
    forall i | 0 <= i < |intent|
      ensures log[i].Confirm? && log[i].call == intent[i] && log[i].waited.receipt == Some(receipts[i]) && receipts[i].ok
    {
      assert ChecksAttempt(log[i], attempts[i]) && Succeeded(log[i]);
    }
  }
}
