/** The submission machine: `submit`, `resubmit`, `reconcile` and `reconcileAll` for one digest, one
    call at a time, over a chain that keeps moving and a journal that survives. Every step between
    two interruption points is one event; the process may be interrupted wherever the source may
    be, and may die anywhere at all. */
module Submit {
  import opened Domain
  import opened Chain
  import opened Reconcile

  datatype Limits = Limits(resubmitAttempts: nat, config: Config, chainId: ChainId)

  function MaxSends(limits: Limits): nat {
    if limits.resubmitAttempts == 0 then 1 else limits.resubmitAttempts
  }

  const LOCK_CONFLICT_RECHECKS := 3

  /** What one execute attempt answered. A timeout is retryable; `OtherReply` is any other failure,
      `conflict` when it names another transaction's lock. */
  datatype Reply =
    | ExecutedReply | FailedReply | ForeignReply | RetryableReply | RefusedReply | OtherReply(conflict: bool)

  predicate Terminal(reply: Reply) {
    reply.ExecutedReply? || reply.FailedReply?
  }

  /** A settle records every answer; a plain reconcile only a terminal one over a held, unresolved
      entry. */
  datatype Task = Settle(attempts: nat, resend: bool) | Ask

  datatype Outcome = Succeeded | ExecutionFailedError | NotAppliedError(evidence: Evidence) | UnknownError
                   | TransportError | JournalError

  datatype Pc =
    | Idle
    | WriteSigned(resent: bool)
    | Attempt(resent: bool, attempts: nat)
    | InFlight(resent: bool, attempts: nat, accepted: bool)
    | Replied(resent: bool, attempts: nat, reply: Reply)
    | WriteRefused
    | Recovering(task: Task, rechecks: nat)
    | Recording(task: Task, answer: Answer)
    | CheckingWindow
    | Returning(outcome: Outcome)

  /** `run` is the chain so far; `wire` says a copy of the bytes may still land; `sends` counts every
      send ever made of them, `callSends` those of the current call. */
  datatype Sub = Sub(run: seq<State>, entry: Option<JournalEntry>, wire: bool, sends: nat, callSends: nat, pc: Pc)

  datatype WriteFate = Written | LostWrite | WrittenButFailed

  datatype Event =
    | ChainMoves(next: State)
    | CallSubmit
    | CallResubmit(readable: bool)
    | CallReconcile
    | CallSettle(resubmit: bool)
    | WriteJournal(fate: WriteFate, at: int)
    | LeaveJournal(readable: bool)
    | Send(accepted: bool)
    | Receive(reply: Reply)
    | Proceed
    | Round(answer: Answer)
    | Window(clock: Clock)
    | Interrupt
    | Die
    | Return

  // ------------------------------------------------------------------------------ the program

  function Decide(resent: bool, attempts: nat, reply: Reply): Pc {
    match reply
    case ExecutedReply => Returning(Succeeded)
    case FailedReply => Returning(ExecutionFailedError)
    case RefusedReply =>
      if !resent && attempts == 1 then WriteRefused else Recovering(Settle(attempts, false), 0)
    case OtherReply(conflict) => Recovering(Settle(attempts, false), if conflict then LOCK_CONFLICT_RECHECKS else 0)
    case _ => Recovering(Settle(attempts, false), 0)
  }

  function OutcomeOf(answer: Answer): Outcome {
    match answer
    case Executed(_) => Succeeded
    case ExecutionFailed(_) => ExecutionFailedError
    case NotApplied(evidence) => NotAppliedError(evidence)
    case Unknown => UnknownError
  }

  function EntryOf(signed: Signed, task: Task, answer: Answer, at: int): JournalEntry {
    match answer
    case Executed(_) => ExecutedEntry(signed.digest, at)
    case ExecutionFailed(_) => FailedEntry(signed.digest, at)
    case NotApplied(evidence) => NotAppliedEntry(signed.digest, evidence, at)
    case Unknown => UnknownEntry(signed.digest, signed, if task.Settle? then task.attempts else 0, at)
  }

  /** After the record: a `reconcileAll` that re-sends goes on to do so when nothing is known yet. */
  function AfterRecord(task: Task, answer: Answer): Pc {
    if task.Settle? && task.resend && answer.Unknown? then CheckingWindow else Returning(OutcomeOf(answer))
  }

  function Put(entry: Option<JournalEntry>, next: JournalEntry, fate: WriteFate): Option<JournalEntry> {
    if fate == LostWrite then entry else Some(next)
  }

  predicate Held(entry: Option<JournalEntry>) {
    entry.Some? && IsUnresolved(entry.value)
  }

  predicate NotTerminal(entry: Option<JournalEntry>) {
    entry.Some? ==> IsUnresolved(entry.value)
  }

  /** Whether an interrupt is possible here: not between an execute answer, or a reconcile answer, and
      its journal write. */
  predicate Interruptible(pc: Pc) {
    !pc.Idle? && !pc.Recording? && !pc.Replied?
  }

  /** Everything about the machine that is fixed: the bytes and the configuration. */
  datatype Job = Job(signed: Signed, limits: Limits)

  /** What a reconcile round can answer now: some truthful reads make `reconcile` say it. */
  ghost predicate CanAnswer(run: seq<State>, job: Job, answer: Answer) {
    exists signed: Option<Signed>, seen: Reads, t: Timing :: AnswersWith(run, job, answer, signed, seen, t)
  }

  ghost predicate AnswersWith(
      run: seq<State>, job: Job, answer: Answer, signed: Option<Signed>, seen: Reads, t: Timing)
  {
    && (signed.Some? ==> signed.value == job.signed)
    && run != [] && BytesOf(run, job.signed, if signed.Some? then seen.asked else [])
    && TruthfulReads(run, job.signed.digest, seen, t)
    && answer == ReconcileAnswer(job.limits.config, job.limits.chainId, job.signed.digest, signed, seen)
    && (answer == NotApplied(Expired) ==> ExpiryAssumption(run, job.limits.config, job.signed, seen, t))
  }

  predicate Applied(c: State, digest: Digest, success: bool) {
    exists i :: 0 <= i < |c.log| && c.log[i].digest == digest && c.log[i].success == success
  }

  /** Whether the program is at a point where this can be its next step. */
  predicate AtPoint(s: Sub, event: Event) {
    match event
    case ChainMoves(_) => true
    case CallSettle(_) => s.pc.Idle? && Held(s.entry)
    case WriteJournal(_, _) =>
      || s.pc.WriteSigned? || s.pc.WriteRefused?
      || (s.pc.Replied? && Terminal(s.pc.reply))
      || (s.pc.Recording? && (s.pc.task.Settle? || (!s.pc.answer.Unknown? && Held(s.entry))))
    case LeaveJournal(readable) =>
      // A plain reconcile: nothing to record, a journal that could not be read, or nothing held.
      s.pc.Recording? && s.pc.task.Ask? && (s.pc.answer.Unknown? || !readable || !Held(s.entry))
    case Send(_) => s.pc.Attempt?
    case Receive(_) => s.pc.InFlight?
    case Proceed => s.pc.Replied? && !Terminal(s.pc.reply)
    case Round(_) => s.pc.Recovering?
    case Window(_) => s.pc.CheckingWindow?
    case Interrupt => Interruptible(s.pc)
    case Die => !s.pc.Idle?
    case Return => s.pc.Returning?
    case _ => s.pc.Idle?
  }

  /** Whether the network and the chain can do their part of it, truthfully. */
  ghost predicate Possible(s: Sub, job: Job, event: Event) {
    match event
    case ChainMoves(next) =>
      // The bytes land only if a copy of them is out there.
      s.run != [] && Next(Last(s.run), next) &&
      (OnChain(next, job.signed.digest) && !OnChain(Last(s.run), job.signed.digest) ==> s.wire)
    case Receive(reply) =>
      && s.run != []
      && (reply.ExecutedReply? ==> Applied(Last(s.run), job.signed.digest, true))
      && (reply.FailedReply? ==> Applied(Last(s.run), job.signed.digest, false))
      && (reply.RefusedReply? && s.pc.InFlight? ==> !s.pc.accepted)
    case Round(answer) => CanAnswer(s.run, job, answer)
    case _ => true
  }

  ghost predicate Enabled(s: Sub, job: Job, event: Event) {
    AtPoint(s, event) && Possible(s, job, event)
  }

  /** `resend`: bytes of another chain, and bytes whose window has closed, are not sent again; a clock that
      cannot be read closes nothing. */
  predicate ResendClosed(job: Job, clock: Clock) {
    || OfAnotherChain(job.limits.chainId, job.signed)
    || ExpiryClosed(job.limits.config, job.signed, clock) == Some(true)
  }

  function AfterCall(s: Sub, pc: Pc): Sub {
    s.(pc := pc, callSends := 0)
  }

  function StartResubmit(s: Sub, readable: bool): Pc {
    if !readable then Returning(JournalError)
    else if s.entry.None? || IsUnresolved(s.entry.value) then CheckingWindow
    else if s.entry.value.NotAppliedEntry? then Returning(NotAppliedError(s.entry.value.evidence))
    else Recovering(Ask, 0)
  }

  function Write(s: Sub, job: Job, fate: WriteFate, at: int): Sub
    requires s.pc.WriteSigned? || s.pc.WriteRefused? || s.pc.Replied? || s.pc.Recording?
  {
    match s.pc
    case WriteSigned(resent) =>
      // The one journal write whose failure is reported: nothing has been sent yet.
      s.(entry := Put(s.entry, SignedEntry(job.signed.digest, job.signed, at), fate),
         pc := if fate == Written then Attempt(resent, 0) else Returning(JournalError))
    case Replied(resent, attempts, reply) =>
      var entry := if reply.ExecutedReply? then ExecutedEntry(job.signed.digest, at)
                   else FailedEntry(job.signed.digest, at);
      s.(entry := Put(s.entry, entry, fate), pc := Decide(resent, attempts, reply))
    case WriteRefused =>
      s.(entry := Put(s.entry, NotAppliedEntry(job.signed.digest, Refused, at), fate), pc := Returning(TransportError))
    case Recording(task, answer) =>
      s.(entry := Put(s.entry, EntryOf(job.signed, task, answer, at), fate), pc := AfterRecord(task, answer))
  }

  function Apply(s: Sub, job: Job, event: Event): Sub
    requires AtPoint(s, event)
  {
    match event
    case ChainMoves(next) => s.(run := s.run + [next])
    case CallSubmit => AfterCall(s, WriteSigned(false))
    case CallResubmit(readable) => AfterCall(s, StartResubmit(s, readable))
    case CallReconcile => AfterCall(s, Recovering(Ask, 0))
    case CallSettle(resubmit) =>
      AfterCall(s, Recovering(Settle(if s.entry.Some? && s.entry.value.UnknownEntry? then s.entry.value.attempts else 1,
                                     resubmit), 0))
    case WriteJournal(fate, at) => Write(s, job, fate, at)
    case LeaveJournal(_) => s.(pc := Returning(OutcomeOf(s.pc.answer)))
    case Send(accepted) =>
      s.(wire := s.wire || accepted, sends := s.sends + 1, callSends := s.callSends + 1,
         pc := InFlight(s.pc.resent, s.pc.attempts + 1, accepted))
    case Receive(reply) =>
      s.(pc := if reply.RetryableReply? && s.pc.attempts < MaxSends(job.limits)
               then Attempt(s.pc.resent, s.pc.attempts)
               else Replied(s.pc.resent, s.pc.attempts, reply))
    case Proceed => s.(pc := Decide(s.pc.resent, s.pc.attempts, s.pc.reply))
    case Round(answer) =>
      s.(pc := if answer.Unknown? && s.pc.rechecks > 0 then Recovering(s.pc.task, s.pc.rechecks - 1)
               else Recording(s.pc.task, answer))
    case Window(clock) =>
      s.(pc := if ResendClosed(job, clock) then Recovering(Settle(1, false), 0) else WriteSigned(true))
    case Interrupt => s.(pc := Idle)
    case Die => s.(pc := Idle)
    case Return => s.(pc := Idle)
  }

  /** `Tx.submit` is for bytes never sent before; everything else may be called at any time. */
  predicate Disciplined(s: Sub, event: Event) {
    event.CallSubmit? ==> s.sends == 0
  }

  ghost predicate Initial(s: Sub, job: Job) {
    && s.entry == None && !s.wire && s.sends == 0 && s.callSends == 0 && s.pc == Idle
    && IsRun(s.run) && BytesOf(s.run, job.signed, []) && !OnChain(Last(s.run), job.signed.digest)
  }

  ghost predicate IsHistory(s: Sub, job: Job, events: seq<Event>)
    decreases |events|
  {
    events == [] ||
    (Enabled(s, job, events[0]) && Disciplined(s, events[0]) && IsHistory(Apply(s, job, events[0]), job, events[1..]))
  }

  ghost function After(s: Sub, job: Job, events: seq<Event>): (s': Sub)
    requires IsHistory(s, job, events)
    ensures s.run != [] ==> s'.run != []
    decreases |events|
  {
    if events == [] then s else After(Apply(s, job, events[0]), job, events[1..])
  }

  // --------------------------------------------------------------- facts that outlive the answer

  /** The digest is not on chain and is in no continuation of the run. */
  ghost predicate Never(run: seq<State>, digest: Digest) {
    IsRun(run) && forall more: seq<State> :: IsRun(run + more) ==> !OnChain(Last(run + more), digest)
  }

  lemma NeverIsNotNow(run: seq<State>, digest: Digest)
    requires Never(run, digest)
    ensures !OnChain(Last(run), digest)
  {
    assert run + [] == run;
  }

  lemma RunGrows(run: seq<State>, next: State)
    requires IsRun(run) && Next(Last(run), next)
    ensures IsRun(run + [next]) && Last(run + [next]) == next
  {
    var grown := run + [next];
    forall i | 0 <= i < |grown| - 1 ensures Next(grown[i], grown[i + 1]) {
      if i == |run| - 1 {
        assert grown[i] == Last(run);
      }
    }
  }

  lemma NeverStays(run: seq<State>, next: State, digest: Digest)
    requires Never(run, digest) && Next(Last(run), next)
    ensures Never(run + [next], digest)
  {
    RunGrows(run, next);
    forall more: seq<State> | IsRun((run + [next]) + more) ensures !OnChain(Last((run + [next]) + more), digest) {
      assert (run + [next]) + more == run + ([next] + more);
    }
  }

  lemma AppliedStays(run: seq<State>, next: State, digest: Digest, success: bool)
    requires IsRun(run) && Next(Last(run), next) && Applied(Last(run), digest, success)
    ensures Applied(next, digest, success)
  {
    RunGrows(run, next);
    var grown := run + [next];
    RunExtends(grown, |run| - 1, |run|);
    var i :| 0 <= i < |Last(run).log| && Last(run).log[i].digest == digest && Last(run).log[i].success == success;
    assert next.log[i] == Last(run).log[i];
  }

  lemma TruthSurvives(run: seq<State>, more: seq<State>, digest: Digest, seen: Reads, t: Timing)
    requires TruthfulReads(run, digest, seen, t)
    ensures TruthfulReads(run + more, digest, seen, t)
  {
    var grown := run + more;
    assert forall i :: 0 <= i < |run| ==> grown[i] == run[i];
    forall asked | asked in seen.asked ensures TruthfulAsked(grown, asked) {
      assert TruthfulAsked(run, asked);
      var w :| TruthfulState(run, asked.pin.objectId, asked.state, w);
      assert TruthfulState(grown, asked.pin.objectId, asked.state, w);
      if asked.state.Present? && asked.state.previous.Some? {
        var v :| TruthfulLookup(run, asked.state.previous.value, asked.consumer, v);
        assert TruthfulLookup(grown, asked.state.previous.value, asked.consumer, v);
      }
    }
  }

  lemma AssumptionSurvives(
      run: seq<State>, more: seq<State>, config: Config, signed: Signed, seen: Reads, t: Timing)
    requires ExpiryAssumption(run, config, signed, seen, t) && TruthfulReads(run, signed.digest, seen, t)
    ensures ExpiryAssumption(run + more, config, signed, seen, t)
  {
    assert forall i :: 0 <= i < |run| ==> (run + more)[i] == run[i];
  }

  /** What a round answers is true now, and a `NotApplied` is true of every continuation. */
  lemma AnswerIsHonest(run: seq<State>, job: Job, answer: Answer)
    requires IsRun(run) && CanAnswer(run, job, answer)
    ensures Honest(Last(run), job.signed.digest, answer)
    ensures answer.NotApplied? ==> answer.evidence != Refused && Never(run, job.signed.digest)
  {
    var signed, seen, t :| AnswersWith(run, job, answer, signed, seen, t);
    var digest := job.signed.digest;
    ReconcileIsHonest(run, job.limits.config, job.limits.chainId, digest, signed, seen, t);
    if answer.NotApplied? {
      forall more: seq<State> | IsRun(run + more) ensures !OnChain(Last(run + more), digest) {
        TruthSurvives(run, more, digest, seen, t);
        if answer == NotApplied(Expired) {
          AssumptionSurvives(run, more, job.limits.config, job.signed, seen, t);
        }
        ReconcileIsHonest(run + more, job.limits.config, job.limits.chainId, digest, signed, seen, t);
      }
    }
  }

  // -------------------------------------------------------------------------------- invariants

  /** The digest was refused and no copy is out there. */
  predicate NotSentOut(s: Sub, digest: Digest)
    requires s.run != []
  {
    !s.wire && !OnChain(Last(s.run), digest)
  }

  /** A terminal entry states the truth; `Refused` as of the last send, the rest for good. */
  ghost predicate EntryIsTrue(s: Sub, job: Job)
    requires s.run != []
  {
    s.entry.Some? ==>
      && s.entry.value.digest == job.signed.digest
      && match s.entry.value
         case ExecutedEntry(_, _) => Applied(Last(s.run), job.signed.digest, true)
         case FailedEntry(_, _) => Applied(Last(s.run), job.signed.digest, false)
         case NotAppliedEntry(_, evidence, _) =>
           if evidence == Refused then NotSentOut(s, job.signed.digest) else Never(s.run, job.signed.digest)
         case _ => true
  }

  ghost predicate AnswerIsTrue(s: Sub, job: Job, answer: Answer)
    requires s.run != []
  {
    match answer
    case Executed(_) => Applied(Last(s.run), job.signed.digest, true)
    case ExecutionFailed(_) => Applied(Last(s.run), job.signed.digest, false)
    case NotApplied(evidence) => evidence != Refused && Never(s.run, job.signed.digest)
    case Unknown => true
  }

  /** The result axis of `SuiError.outcome`. */
  datatype Axis = AppliedAxis | NotAppliedAxis | UnknownAxis

  function AxisOf(outcome: Outcome): Axis {
    match outcome
    case Succeeded => AppliedAxis
    case ExecutionFailedError => AppliedAxis
    case UnknownError => UnknownAxis
    case _ => NotAppliedAxis
  }

  ghost predicate OutcomeIsTrue(s: Sub, job: Job, outcome: Outcome)
    requires s.run != []
  {
    match outcome
    case Succeeded => Applied(Last(s.run), job.signed.digest, true)
    case ExecutionFailedError => Applied(Last(s.run), job.signed.digest, false)
    case NotAppliedError(evidence) =>
      if evidence == Refused then NotSentOut(s, job.signed.digest) else Never(s.run, job.signed.digest)
    case UnknownError => true
    case TransportError => s.callSends == 1 && s.sends == 1 && NotSentOut(s, job.signed.digest)
    case JournalError => s.callSends == 0 && (s.sends == 0 ==> NotSentOut(s, job.signed.digest))
  }

  /** What holds at each point of the program. */
  ghost predicate PcOk(s: Sub, job: Job)
    requires s.run != []
  {
    match s.pc
    case Idle => true
    case WriteSigned(resent) =>
      s.callSends == 0 && (if resent then NotTerminal(s.entry) else s.sends == 0)
    case Attempt(resent, attempts) =>
      Held(s.entry) && s.callSends == attempts < MaxSends(job.limits) && (!resent ==> s.sends == attempts)
    case InFlight(resent, attempts, accepted) =>
      && Held(s.entry) && 1 <= s.callSends == attempts <= MaxSends(job.limits)
      && (!resent ==> s.sends == attempts && (attempts == 1 ==> s.wire == accepted))
    case Replied(resent, attempts, reply) =>
      && Held(s.entry) && 1 <= s.callSends == attempts <= MaxSends(job.limits)
      && (reply.ExecutedReply? ==> Applied(Last(s.run), job.signed.digest, true))
      && (reply.FailedReply? ==> Applied(Last(s.run), job.signed.digest, false))
      && (!resent ==> s.sends == attempts)
      && (reply.RefusedReply? && !resent && attempts == 1 ==> NotSentOut(s, job.signed.digest))
    case WriteRefused => Held(s.entry) && s.callSends == 1 && s.sends == 1 && NotSentOut(s, job.signed.digest)
    case Recovering(task, _) => task.Settle? ==> NotTerminal(s.entry) && (task.resend ==> s.callSends == 0)
    case Recording(task, answer) =>
      && AnswerIsTrue(s, job, answer)
      && (task.Settle? ==> NotTerminal(s.entry) && (task.resend ==> s.callSends == 0))
    case CheckingWindow => NotTerminal(s.entry) && s.callSends == 0
    case Returning(outcome) => OutcomeIsTrue(s, job, outcome)
  }

  ghost predicate Inv(s: Sub, job: Job) {
    && IsRun(s.run) && BytesOf(s.run, job.signed, [])
    && (s.sends > 0 ==> s.entry.Some?)
    && (s.wire ==> s.sends > 0)
    && (OnChain(Last(s.run), job.signed.digest) ==> s.wire)
    && s.callSends <= MaxSends(job.limits) && s.callSends <= s.sends
    && EntryIsTrue(s, job)
    && PcOk(s, job)
  }

  lemma InitialIsInv(s: Sub, job: Job)
    requires Initial(s, job)
    ensures Inv(s, job)
  {
  }

  /** What is true of the digest stays true when the chain moves. */
  lemma TruthStays(run: seq<State>, next: State, digest: Digest)
    requires IsRun(run) && Next(Last(run), next)
    ensures IsRun(run + [next]) && Last(run + [next]) == next && (run + [next])[0] == run[0]
    ensures Applied(Last(run), digest, true) ==> Applied(next, digest, true)
    ensures Applied(Last(run), digest, false) ==> Applied(next, digest, false)
    ensures Never(run, digest) ==> Never(run + [next], digest)
    ensures OnChain(Last(run), digest) ==> OnChain(next, digest)
  {
    RunGrows(run, next);
    if Applied(Last(run), digest, true) {
      AppliedStays(run, next, digest, true);
    }
    if Applied(Last(run), digest, false) {
      AppliedStays(run, next, digest, false);
    }
    if Never(run, digest) {
      NeverStays(run, next, digest);
    }
    if OnChain(Last(run), digest) {
      OnChainStays(run + [next], |run| - 1, |run|, digest);
    }
  }

  lemma ChainMoveKeepsInv(s: Sub, job: Job, next: State)
    requires Inv(s, job) && Enabled(s, job, ChainMoves(next))
    ensures Inv(Apply(s, job, ChainMoves(next)), job)
  {
    TruthStays(s.run, next, job.signed.digest);
  }

  lemma SignedWriteKeepsInv(s: Sub, job: Job, fate: WriteFate, at: int)
    requires Inv(s, job) && s.pc.WriteSigned? && AtPoint(s, WriteJournal(fate, at))
    ensures Inv(Write(s, job, fate, at), job)
  {
  }

  lemma AnswerWriteKeepsInv(s: Sub, job: Job, fate: WriteFate, at: int)
    requires Inv(s, job) && s.pc.Replied? && AtPoint(s, WriteJournal(fate, at))
    ensures Inv(Write(s, job, fate, at), job)
  {
  }

  lemma RefusedWriteKeepsInv(s: Sub, job: Job, fate: WriteFate, at: int)
    requires Inv(s, job) && s.pc.WriteRefused? && AtPoint(s, WriteJournal(fate, at))
    ensures Inv(Write(s, job, fate, at), job)
  {
  }

  lemma RecordKeepsInv(s: Sub, job: Job, fate: WriteFate, at: int)
    requires Inv(s, job) && s.pc.Recording? && AtPoint(s, WriteJournal(fate, at))
    ensures Inv(Write(s, job, fate, at), job)
  {
  }

  lemma WriteKeepsInv(s: Sub, job: Job, fate: WriteFate, at: int)
    requires Inv(s, job) && AtPoint(s, WriteJournal(fate, at))
    ensures Inv(Apply(s, job, WriteJournal(fate, at)), job)
  {
    match s.pc
    case WriteSigned(_) => SignedWriteKeepsInv(s, job, fate, at);
    case Replied(_, _, _) => AnswerWriteKeepsInv(s, job, fate, at);
    case WriteRefused => RefusedWriteKeepsInv(s, job, fate, at);
    case Recording(_, _) => RecordKeepsInv(s, job, fate, at);
  }

  lemma RoundKeepsInv(s: Sub, job: Job, answer: Answer)
    requires Inv(s, job) && Enabled(s, job, Round(answer))
    ensures Inv(Apply(s, job, Round(answer)), job)
  {
    AnswerIsHonest(s.run, job, answer);
  }

  lemma CallKeepsInv(s: Sub, job: Job, event: Event)
    requires Inv(s, job) && Enabled(s, job, event) && Disciplined(s, event)
    requires event.CallSubmit? || event.CallResubmit? || event.CallReconcile? || event.CallSettle?
    ensures Inv(Apply(s, job, event), job)
  {
  }

  lemma ExecuteKeepsInv(s: Sub, job: Job, event: Event)
    requires Inv(s, job) && Enabled(s, job, event) && (event.Send? || event.Receive? || event.Proceed?)
    ensures Inv(Apply(s, job, event), job)
  {
  }

  /** Every event keeps the invariant. */
  lemma EventKeepsInv(s: Sub, job: Job, event: Event)
    requires Inv(s, job) && Enabled(s, job, event) && Disciplined(s, event)
    ensures Inv(Apply(s, job, event), job)
  {
    match event
    case ChainMoves(next) => ChainMoveKeepsInv(s, job, next);
    case WriteJournal(fate, at) => WriteKeepsInv(s, job, fate, at);
    case Round(answer) => RoundKeepsInv(s, job, answer);
    case Send(_) => ExecuteKeepsInv(s, job, event);
    case Receive(_) => ExecuteKeepsInv(s, job, event);
    case Proceed => ExecuteKeepsInv(s, job, event);
    case CallSubmit => CallKeepsInv(s, job, event);
    case CallResubmit(_) => CallKeepsInv(s, job, event);
    case CallReconcile => CallKeepsInv(s, job, event);
    case CallSettle(_) => CallKeepsInv(s, job, event);
    case _ =>
  }

  lemma {:induction false} HistoryKeepsInv(s: Sub, job: Job, events: seq<Event>)
    requires Inv(s, job) && IsHistory(s, job, events)
    ensures Inv(After(s, job, events), job)
    decreases |events|
  {
    if events != [] {
      EventKeepsInv(s, job, events[0]);
      HistoryKeepsInv(Apply(s, job, events[0]), job, events[1..]);
    }
  }

  // ------------------------------------------------------------------------------ main results

  /** Whatever a call returns lies truthfully on the outcome axis when it returns, after any history:
      applied means on chain, not applied means not on chain, and a `NotApplied` on evidence is
      true of every continuation. A transport error escapes only after exactly one send ever, which
      was refused; no call sends more than its attempts allow. A journal error says nothing was
      sent by this call, so it is judged where no earlier call sent anything. */
  lemma OutcomesAreHonest(s: Sub, job: Job, events: seq<Event>)
    requires Initial(s, job) && IsHistory(s, job, events) && After(s, job, events).pc.Returning?
    ensures var s' := After(s, job, events);
            var outcome := s'.pc.outcome;
            && (outcome == Succeeded ==> Applied(Last(s'.run), job.signed.digest, true))
            && (outcome == ExecutionFailedError ==> Applied(Last(s'.run), job.signed.digest, false))
            && (AxisOf(outcome) == AppliedAxis <==> outcome == Succeeded || outcome == ExecutionFailedError)
            && (AxisOf(outcome) == UnknownAxis <==> outcome == UnknownError)
            && (AxisOf(outcome) == AppliedAxis ==> OnChain(Last(s'.run), job.signed.digest))
            && (AxisOf(outcome) == NotAppliedAxis && (outcome.JournalError? ==> s'.sends == 0) ==>
                  !OnChain(Last(s'.run), job.signed.digest))
            && (outcome.NotAppliedError? && outcome.evidence != Refused ==> Never(s'.run, job.signed.digest))
            && (outcome.TransportError? ==> s'.callSends == 1 && s'.sends == 1 && !s'.wire)
            && s'.callSends <= MaxSends(job.limits)
  {
    InitialIsInv(s, job);
    HistoryKeepsInv(s, job, events);
    var s' := After(s, job, events);
    if s'.pc.outcome.NotAppliedError? && s'.pc.outcome.evidence != Refused {
      NeverIsNotNow(s'.run, job.signed.digest);
    }
  }

  /** Wherever the process is stopped: a digest ever sent has an entry, and a terminal entry states
      the truth about it. */
  lemma JournalTellsTheTruth(s: Sub, job: Job, events: seq<Event>)
    requires Initial(s, job) && IsHistory(s, job, events)
    ensures var s' := After(s, job, events);
            && (s'.sends > 0 ==> s'.entry.Some?)
            && (s'.entry.Some? ==>
                  match s'.entry.value
                  case ExecutedEntry(_, _) => Applied(Last(s'.run), job.signed.digest, true)
                  case FailedEntry(_, _) => Applied(Last(s'.run), job.signed.digest, false)
                  case NotAppliedEntry(_, _, _) => !OnChain(Last(s'.run), job.signed.digest)
                  case _ => true)
  {
    InitialIsInv(s, job);
    HistoryKeepsInv(s, job, events);
    var s' := After(s, job, events);
    if s'.entry.Some? && s'.entry.value.NotAppliedEntry? && s'.entry.value.evidence != Refused {
      NeverIsNotNow(s'.run, job.signed.digest);
    }
  }

  predicate IsCall(event: Event) {
    event.CallSubmit? || event.CallResubmit? || event.CallReconcile? || event.CallSettle?
  }

  /** No first submit is still to come: the bytes were sent, or `submit` is not called. */
  predicate NoSubmitFollows(s: Sub, events: seq<Event>) {
    s.sends > 0 || forall k :: 0 <= k < |events| ==> !events[k].CallSubmit?
  }

  /** A settled digest stays settled and is never sent again by `resubmit`, `reconcile` and `reconcileAll`,
      nor, once the bytes were sent, by anything. */
  lemma {:induction false} SettledStaysSettled(s: Sub, job: Job, events: seq<Event>)
    requires Inv(s, job) && IsHistory(s, job, events) && s.entry.Some? && !IsUnresolved(s.entry.value)
    requires NoSubmitFollows(s, events) && !s.pc.WriteSigned?
    ensures After(s, job, events).entry == s.entry && After(s, job, events).sends == s.sends
    decreases |events|
  {
    if events != [] {
      EventKeepsInv(s, job, events[0]);
      SettledStaysSettled(Apply(s, job, events[0]), job, events[1..]);
    }
  }

  // ------------------------------------------------------------------ no answer is lost

  /** The terminal answer an event brings and the process takes responsibility for: that of an execute,
      or of a reconcile round, unless a plain reconcile holds no unresolved entry. */
  function TerminalAnswer(s: Sub, event: Event): Option<Outcome> {
    match event
    case Receive(ExecutedReply) => Some(Succeeded)
    case Receive(FailedReply) => Some(ExecutionFailedError)
    case Round(answer) =>
      if answer.Unknown? || (s.pc.Recovering? && s.pc.task.Ask? && !Held(s.entry)) then None
      else Some(OutcomeOf(answer))
    case _ => None
  }

  /** The entry is this answer's terminal entry. */
  predicate Records(entry: Option<JournalEntry>, outcome: Outcome) {
    && entry.Some?
    && match outcome
       case Succeeded => entry.value.ExecutedEntry?
       case ExecutionFailedError => entry.value.FailedEntry?
       case NotAppliedError(evidence) => entry.value.NotAppliedEntry? && entry.value.evidence == evidence
       case _ => false
  }

  /** The process does not die, and every journal call is answered. */
  predicate Faultless(events: seq<Event>) {
    forall k :: 0 <= k < |events| ==>
      match events[k]
      case Die => false
      case WriteJournal(fate, _) => fate == Written
      case LeaveJournal(readable) => readable
      case _ => true
  }

  predicate OnlyMoves(events: seq<Event>) {
    forall k :: 0 <= k < |events| ==> events[k].ChainMoves?
  }

  /** The answer is in and its record is the next thing the process does. */
  predicate Pending(s: Sub, outcome: Outcome) {
    match s.pc
    case Replied(_, _, ExecutedReply) => outcome == Succeeded
    case Replied(_, _, FailedReply) => outcome == ExecutionFailedError
    case Recording(task, answer) => !answer.Unknown? && outcome == OutcomeOf(answer) && (task.Ask? ==> Held(s.entry))
    case _ => false
  }

  lemma PendingStep(s: Sub, job: Job, event: Event, outcome: Outcome)
    requires Enabled(s, job, event) && Pending(s, outcome) && Faultless([event])
    ensures if event.ChainMoves? then Pending(Apply(s, job, event), outcome)
            else Records(Apply(s, job, event).entry, outcome) && !Apply(s, job, event).pc.WriteSigned?
  {
    assert [event][0] == event;
  }

  lemma {:induction false} PendingIsRecorded(s: Sub, job: Job, events: seq<Event>, outcome: Outcome)
    requires Inv(s, job) && IsHistory(s, job, events) && Faultless(events) && NoSubmitFollows(s, events)
    requires Pending(s, outcome)
    ensures OnlyMoves(events) || Records(After(s, job, events).entry, outcome)
    decreases |events|
  {
    if events != [] {
      var s' := Apply(s, job, events[0]);
      assert [events[0]][0] == events[0];
      PendingStep(s, job, events[0], outcome);
      EventKeepsInv(s, job, events[0]);
      if events[0].ChainMoves? {
        PendingIsRecorded(s', job, events[1..], outcome);
      } else {
        SettledStaysSettled(s', job, events[1..]);
      }
    }
  }

  /** In every history in which the process does not die and the journal answers, whatever terminal answer
      it is given is in the journal at every later point, interrupts and all; until then nothing but the
      chain has moved. */
  lemma AnswersReachTheJournal(s: Sub, job: Job, before: seq<Event>, events: seq<Event>)
    requires Initial(s, job) && IsHistory(s, job, before) && IsHistory(After(s, job, before), job, events)
    requires events != [] && TerminalAnswer(After(s, job, before), events[0]).Some?
    requires Faultless(events) && NoSubmitFollows(After(s, job, before), events[1..])
    ensures OnlyMoves(events[1..]) ||
            Records(After(After(s, job, before), job, events).entry,
                    TerminalAnswer(After(s, job, before), events[0]).value)
  {
    InitialIsInv(s, job);
    HistoryKeepsInv(s, job, before);
    var s0 := After(s, job, before);
    EventKeepsInv(s0, job, events[0]);
    PendingIsRecorded(Apply(s0, job, events[0]), job, events[1..], TerminalAnswer(s0, events[0]).value);
  }

  // --------------------------------------------------------------- what is never sent again

  predicate Resending(pc: Pc) {
    match pc
    case WriteSigned(resent) => resent
    case Attempt(resent, _) => resent
    case InFlight(resent, _, _) => resent
    case _ => false
  }

  predicate MaySend(pc: Pc) {
    pc.WriteSigned? || pc.Attempt? || pc.InFlight?
  }

  lemma {:induction false} ForeignBytesAreNotResent(s: Sub, job: Job, events: seq<Event>)
    requires OfAnotherChain(job.limits.chainId, job.signed) && IsHistory(s, job, events) && !Resending(s.pc)
    ensures !Resending(After(s, job, events).pc)
    decreases |events|
  {
    if events != [] {
      ForeignBytesAreNotResent(Apply(s, job, events[0]), job, events[1..]);
    }
  }

  lemma {:induction false} WithoutSubmitNothingIsSent(s: Sub, job: Job, events: seq<Event>)
    requires OfAnotherChain(job.limits.chainId, job.signed) && IsHistory(s, job, events) && !MaySend(s.pc)
    requires forall k :: 0 <= k < |events| ==> !events[k].CallSubmit?
    ensures After(s, job, events).sends == s.sends && !MaySend(After(s, job, events).pc)
    decreases |events|
  {
    if events != [] {
      WithoutSubmitNothingIsSent(Apply(s, job, events[0]), job, events[1..]);
    }
  }

  /** Bytes of another chain: in no history does anything but a first `submit` send them, and where none is
      called they are never sent. */
  lemma OnlySubmitSendsForeignBytes(s: Sub, job: Job, events: seq<Event>)
    requires Initial(s, job) && IsHistory(s, job, events) && OfAnotherChain(job.limits.chainId, job.signed)
    ensures After(s, job, events).pc.Attempt? ==> !After(s, job, events).pc.resent
    ensures (forall k :: 0 <= k < |events| ==> !events[k].CallSubmit?) ==> After(s, job, events).sends == 0
  {
    ForeignBytesAreNotResent(s, job, events);
    if forall k :: 0 <= k < |events| ==> !events[k].CallSubmit? {
      WithoutSubmitNothingIsSent(s, job, events);
    }
  }

  lemma {:induction false} CallWithoutSend(s: Sub, job: Job, events: seq<Event>)
    requires IsHistory(s, job, events) && forall k :: 0 <= k < |events| ==> !IsCall(events[k])
    requires !MaySend(s.pc) && !s.pc.CheckingWindow? && !WillResend(s.pc)
    ensures After(s, job, events).sends == s.sends
    decreases |events|
  {
    if events != [] {
      CallWithoutSend(Apply(s, job, events[0]), job, events[1..]);
    }
  }

  predicate WillResend(pc: Pc) {
    (pc.Recovering? || pc.Recording?) && pc.task.Settle? && pc.task.resend
  }

  /** A re-send whose clock finds the window closed sends nothing until the next call. */
  lemma ClosedWindowSendsNothing(s: Sub, job: Job, clock: Clock, events: seq<Event>)
    requires s.pc.CheckingWindow? && ResendClosed(job, clock)
    requires IsHistory(s, job, [Window(clock)] + events)
    requires forall k :: 0 <= k < |events| ==> !IsCall(events[k])
    ensures After(s, job, [Window(clock)] + events).sends == s.sends
  {
    assert ([Window(clock)] + events)[1..] == events;
    CallWithoutSend(Apply(s, job, Window(clock)), job, events);
  }

  // ---------------------------------------------------------- why `submit` is for bytes never sent

  lemma Precede(s: Sub, job: Job, event: Event, events: seq<Event>)
    requires Enabled(s, job, event) && Disciplined(s, event) && IsHistory(Apply(s, job, event), job, events)
    ensures IsHistory(s, job, [event] + events)
    ensures After(s, job, [event] + events) == After(Apply(s, job, event), job, events)
  {
    assert ([event] + events)[1..] == events;
  }

  lemma {:induction false} Continue(s: Sub, job: Job, before: seq<Event>, events: seq<Event>)
    requires IsHistory(s, job, before) && IsHistory(After(s, job, before), job, events)
    ensures IsHistory(s, job, before + events)
    ensures After(s, job, before + events) == After(After(s, job, before), job, events)
    decreases |before|
  {
    if before == [] {
      assert before + events == events;
    } else {
      Continue(Apply(s, job, before[0]), job, before[1..], events);
      assert (before + events)[1..] == before[1..] + events;
    }
  }

  /** A submit of bytes sent `n` times before, called in an idle state some disciplined history leads to,
      that has come to return the refusal of its first send. */
  ghost predicate RefusedSubmit(n: nat, s: Sub, job: Job, before: seq<Event>, during: seq<Event>) {
    && Initial(s, job) && IsHistory(s, job, before)
    && After(s, job, before).pc.Idle? && After(s, job, before).sends == n
    && (forall k :: 0 <= k < |during| ==> !IsCall(during[k]))
    && IsHistory(Apply(After(s, job, before), job, CallSubmit), job, during)
    && AfterSubmit(s, job, before, during).pc == Returning(TransportError)
  }

  ghost function AfterSubmit(s: Sub, job: Job, before: seq<Event>, during: seq<Event>): (s': Sub)
    requires IsHistory(s, job, before) && After(s, job, before).pc.Idle?
    requires IsHistory(Apply(After(s, job, before), job, CallSubmit), job, during)
    ensures s.run != [] ==> s'.run != []
  {
    After(Apply(After(s, job, before), job, CallSubmit), job, during)
  }

  /** What every such submit leaves in the journal is true. */
  ghost predicate RefusalsAreTrue(n: nat) {
    forall s: Sub, job: Job, before: seq<Event>, during: seq<Event> ::
      RefusedSubmit(n, s, job, before, during) ==> EntryIsTrue(AfterSubmit(s, job, before, during), job)
  }

  lemma FirstRefusalIsTrue(s: Sub, job: Job, before: seq<Event>, during: seq<Event>)
    requires RefusedSubmit(0, s, job, before, during)
    ensures EntryIsTrue(AfterSubmit(s, job, before, during), job)
  {
    InitialIsInv(s, job);
    HistoryKeepsInv(s, job, before);
    var idle := After(s, job, before);
    assert Enabled(idle, job, CallSubmit);
    EventKeepsInv(idle, job, CallSubmit);
    HistoryKeepsInv(Apply(idle, job, CallSubmit), job, during);
  }

  /** What bytes that land late look like after some sends, each call interrupted with its copy out. */
  ghost predicate SentOut(s: Sub, job: Job, n: nat) {
    && job.signed == Signed(job.signed.digest, [], EpochBound(0), None)
    && s.run == [LateLanding(job.signed.digest)[0]] && s.pc.Idle? && s.wire && s.sends == n
    && s.entry == Some(SignedEntry(job.signed.digest, job.signed, 0))
  }

  ghost function Fresh(digest: Digest): Sub {
    Sub([LateLanding(digest)[0]], None, false, 0, 0, Idle)
  }

  /** A call, from its signed write on: written, sent, interrupted. */
  const CUT_SHORT: seq<Event> := [WriteJournal(Written, 0)] + ([Send(true)] + [Interrupt])

  lemma CutShort(s: Sub, job: Job, resent: bool)
    requires s.pc == WriteSigned(resent)
    ensures IsHistory(s, job, CUT_SHORT)
    ensures After(s, job, CUT_SHORT) ==
            Sub(s.run, Some(SignedEntry(job.signed.digest, job.signed, 0)), true, s.sends + 1, s.callSends + 1, Idle)
  {
    var s1 := Apply(s, job, WriteJournal(Written, 0));
    var s2 := Apply(s1, job, Send(true));
    Precede(s2, job, Interrupt, []);
    assert [Interrupt] + [] == [Interrupt];
    Precede(s1, job, Send(true), [Interrupt]);
    Precede(s, job, WriteJournal(Written, 0), [Send(true)] + [Interrupt]);
  }

  lemma SentOutOnce(job: Job)
    requires job.signed == Signed(job.signed.digest, [], EpochBound(0), None)
    ensures var s, events := Fresh(job.signed.digest), [CallSubmit] + CUT_SHORT;
            Initial(s, job) && IsHistory(s, job, events) && SentOut(After(s, job, events), job, 1)
  {
    LateLandingIsARun(job.signed.digest);
    var s := Fresh(job.signed.digest);
    CutShort(Apply(s, job, CallSubmit), job, false);
    Precede(s, job, CallSubmit, CUT_SHORT);
  }

  lemma SentOutAgain(s: Sub, job: Job, n: nat)
    requires SentOut(s, job, n) && !OfAnotherChain(job.limits.chainId, job.signed)
    ensures var events := [CallResubmit(true)] + ([Window(Clock(Some(0), None))] + CUT_SHORT);
            IsHistory(s, job, events) && SentOut(After(s, job, events), job, n + 1)
  {
    var clock := Clock(Some(0), None);
    var s1 := Apply(s, job, CallResubmit(true));
    var s2 := Apply(s1, job, Window(clock));
    CutShort(s2, job, true);
    Precede(s1, job, Window(clock), CUT_SHORT);
    Precede(s, job, CallResubmit(true), [Window(clock)] + CUT_SHORT);
  }

  /** Any number of sends, all cut short, with the bytes not landed yet. */
  lemma {:induction false} SentOutTimes(job: Job, n: nat) returns (events: seq<Event>)
    requires job.signed == Signed(job.signed.digest, [], EpochBound(0), None) && n > 0
    ensures var s := Fresh(job.signed.digest);
            Initial(s, job) && IsHistory(s, job, events) && SentOut(After(s, job, events), job, n)
  {
    var s := Fresh(job.signed.digest);
    if n == 1 {
      SentOutOnce(job);
      events := [CallSubmit] + CUT_SHORT;
    } else {
      var before := SentOutTimes(job, n - 1);
      SentOutAgain(After(s, job, before), job, n - 1);
      var again := [CallResubmit(true)] + ([Window(Clock(Some(0), None))] + CUT_SHORT);
      Continue(s, job, before, again);
      events := before + again;
    }
  }

  /** A submit, once called: written, sent, refused, recorded. */
  const REFUSED: seq<Event> :=
    [WriteJournal(Written, 0)] +
    ([Send(false)] + ([Receive(RefusedReply)] + ([Proceed] + [WriteJournal(Written, 0)])))

  lemma IsRefused(s: Sub, job: Job)
    requires s.pc == WriteSigned(false) && s.run != []
    ensures IsHistory(s, job, REFUSED)
    ensures var s' := After(s, job, REFUSED);
            && s'.pc == Returning(TransportError) && s'.run == s.run
            && s'.entry == Some(NotAppliedEntry(job.signed.digest, Refused, 0))
  {
    var write := WriteJournal(Written, 0);
    var s1 := Apply(s, job, write);
    var s2 := Apply(s1, job, Send(false));
    var s3 := Apply(s2, job, Receive(RefusedReply));
    var s4 := Apply(s3, job, Proceed);
    Precede(s4, job, write, []);
    assert [write] + [] == [write];
    Precede(s3, job, Proceed, [write]);
    Precede(s2, job, Receive(RefusedReply), [Proceed] + [write]);
    Precede(s1, job, Send(false), [Receive(RefusedReply)] + ([Proceed] + [write]));
    Precede(s, job, write, [Send(false)] + ([Receive(RefusedReply)] + ([Proceed] + [write])));
  }

  /** The lie is reachable from any number of earlier sends: a copy lands after the last of them was
      interrupted, a submit of the same bytes is refused, and the journal says not applied of a
      transaction on chain. */
  lemma SecondSubmitCanLie(job: Job, n: nat) returns (before: seq<Event>)
    requires job.signed == Signed(job.signed.digest, [], EpochBound(0), None) && n > 0
    ensures var s := Fresh(job.signed.digest);
            && RefusedSubmit(n, s, job, before, REFUSED)
            && OnChain(Last(AfterSubmit(s, job, before, REFUSED).run), job.signed.digest)
            && AfterSubmit(s, job, before, REFUSED).entry == Some(NotAppliedEntry(job.signed.digest, Refused, 0))
  {
    var s, landing := Fresh(job.signed.digest), LateLanding(job.signed.digest);
    LateLandingIsARun(job.signed.digest);
    var sent := SentOutTimes(job, n);
    var out, land := After(s, job, sent), ChainMoves(landing[1]);
    assert Next(landing[0], landing[1]);
    Precede(out, job, land, []);
    assert [land] + [] == [land];
    Continue(s, job, sent, [land]);
    before := sent + [land];
    IsRefused(Apply(After(s, job, before), job, CallSubmit), job);
  }

  /** Exactly when a caller may call `submit`: whatever the bytes, the configuration and the history, what
      a refused submit records is true if the bytes were never sent, and for no other number of sends. */
  lemma RefusalsAreTrueIffNothingWasSent(n: nat)
    ensures RefusalsAreTrue(n) <==> n == 0
  {
    if n == 0 {
      forall s: Sub, job: Job, before: seq<Event>, during: seq<Event> | RefusedSubmit(0, s, job, before, during)
        ensures EntryIsTrue(AfterSubmit(s, job, before, during), job)
      {
        FirstRefusalIsTrue(s, job, before, during);
      }
    } else {
      var job := Job(Signed(0, [], EpochBound(0), None), Limits(1, Config(true, 0), 0));
      var before := SecondSubmitCanLie(job, n);
      assert RefusedSubmit(n, Fresh(0), job, before, REFUSED);
      assert !EntryIsTrue(AfterSubmit(Fresh(0), job, before, REFUSED), job);
    }
  }
}
