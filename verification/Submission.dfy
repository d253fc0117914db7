/** The code of `submit`, `resubmit`, `reconcile` and one entry's `reconcileAll`, as it runs when nothing
    stops it, over one journal entry. Every call is a run of the submission machine. */
module Submission {
  import opened Calls
  import Chain
  import opened Domain
  import opened Reconcile
  import opened Submit

  // ------------------------------------------------------------------------- runs of the machine

  /** The machine's steps, without the chain's: what the program alone decides. */
  ghost predicate IsTrace(s: Sub, job: Job, events: seq<Event>)
    decreases |events|, 0
  {
    events == [] ||
    (var before, last := events[..|events| - 1], events[|events| - 1];
     && IsTrace(s, job, before)
     && !last.ChainMoves?
     && AtPoint(RunOf(s, job, before), last))
  }

  ghost function RunOf(s: Sub, job: Job, events: seq<Event>): Sub
    requires IsTrace(s, job, events)
    decreases |events|, 1
  {
    if events == [] then s
    else Apply(RunOf(s, job, events[..|events| - 1]), job, events[|events| - 1])
  }

  lemma OneMoreStep(s: Sub, job: Job, events: seq<Event>, event: Event)
    requires IsTrace(s, job, events) && AtPoint(RunOf(s, job, events), event) && !event.ChainMoves?
    ensures IsTrace(s, job, events + [event])
    ensures RunOf(s, job, events + [event]) == Apply(RunOf(s, job, events), job, event)
  {
    assert (events + [event])[..|events|] == events;
  }

  /** Two states the program cannot tell apart. */
  predicate SameProgram(a: Sub, b: Sub) {
    a.entry == b.entry && a.wire == b.wire && a.sends == b.sends && a.callSends == b.callSends && a.pc == b.pc
  }

  function WithoutMoves(events: seq<Event>): seq<Event> {
    if events == [] then []
    else
      var last := events[|events| - 1];
      WithoutMoves(events[..|events| - 1]) + if last.ChainMoves? then [] else [last]
  }

  lemma {:induction false} HistoryPrefix(s: Sub, job: Job, events: seq<Event>)
    requires IsHistory(s, job, events) && events != []
    ensures var before, last := events[..|events| - 1], events[|events| - 1];
            && IsHistory(s, job, before)
            && Enabled(After(s, job, before), job, last)
            && After(s, job, events) == Apply(After(s, job, before), job, last)
    decreases |events|
  {
    if |events| > 1 {
      HistoryPrefix(Apply(s, job, events[0]), job, events[1..]);
      assert events[1..][..|events| - 2] == events[..|events| - 1][1..];
    } else {
      assert After(s, job, events) == After(Apply(s, job, events[0]), job, []);
    }
  }

  lemma SameProgramSteps(a: Sub, b: Sub, job: Job, event: Event)
    requires SameProgram(a, b) && AtPoint(b, event)
    ensures AtPoint(a, event)
    ensures SameProgram(if event.ChainMoves? then a else Apply(a, job, event), Apply(b, job, event))
  {
  }

  /** Wherever the chain moves in between, a history of the machine is a run of its program. */
  lemma {:induction false} HistoriesAreTraces(s: Sub, job: Job, events: seq<Event>)
    requires IsHistory(s, job, events)
    ensures IsTrace(s, job, WithoutMoves(events))
    ensures SameProgram(RunOf(s, job, WithoutMoves(events)), After(s, job, events))
    decreases |events|
  {
    if events != [] {
      var before, last := events[..|events| - 1], events[|events| - 1];
      HistoryPrefix(s, job, events);
      HistoriesAreTraces(s, job, before);
      SameProgramSteps(RunOf(s, job, WithoutMoves(before)), After(s, job, before), job, last);
      if last.ChainMoves? {
        assert WithoutMoves(events) == WithoutMoves(before);
      } else {
        OneMoreStep(s, job, WithoutMoves(before), last);
      }
    }
  }

  // ---------------------------------------------------------------------- what the code is answered

  /** This step, after so many of each kind, is answered what the world answers at that point; nothing stops
      the process. */
  ghost predicate IsAnswer(world: World, tally: Tally, event: Event) {
    match event
    case Send(accepted) => accepted == world.GoesOut(tally.sends)
    case Receive(reply) => tally.sends > 0 && reply == world.ReplyTo(tally.sends - 1)
    case Round(answer) => answer == world.Answer(tally.rounds)
    case Window(clock) => clock == world.ClockAt(tally.windows)
    case WriteJournal(fate, at) => fate == world.FateOf(tally.writes) && at == world.TimeOf(tally.writes)
    case ChainMoves(_) => false
    case Interrupt => false
    case Die => false
    case _ => true
  }

  function Counted(tally: Tally, event: Event): Tally {
    match event
    case Send(_) => tally.(sends := tally.sends + 1)
    case Round(_) => tally.(rounds := tally.rounds + 1)
    case Window(_) => tally.(windows := tally.windows + 1)
    case WriteJournal(_, _) => tally.(writes := tally.writes + 1)
    case _ => tally
  }

  ghost predicate OneStep(job: Job, world: World, s: Sub, tally: Tally, event: Event, s': Sub, tally': Tally) {
    AtPoint(s, event) && IsAnswer(world, tally, event) && s' == Apply(s, job, event) && tally' == Counted(tally, event)
  }

  /** The states and the tallies along the steps, one before each and one after the last. */
  ghost predicate RunsThrough(job: Job, world: World, events: seq<Event>, states: seq<Sub>, tallies: seq<Tally>) {
    && |states| == |tallies| == |events| + 1
    && tallies[0] == Tally(0, 0, 0, 0)
    && forall k: nat :: k < |events| ==> StepAt(job, world, events, states, tallies, k)
  }

  ghost predicate StepAt(
      job: Job, world: World, events: seq<Event>, states: seq<Sub>, tallies: seq<Tally>, k: nat)
    requires |states| == |tallies| == |events| + 1 && k < |events|
  {
    OneStep(job, world, states[k], tallies[k], events[k], states[k + 1], tallies[k + 1])
  }

  /** The machine has come from `start` to `machine` by these steps, answered by this world so many times. */
  ghost predicate Ran(start: Sub, job: Job, world: World, events: seq<Event>, machine: Sub, tally: Tally) {
    exists states: seq<Sub>, tallies: seq<Tally> ::
      && RunsThrough(job, world, events, states, tallies)
      && states[0] == start && states[|events|] == machine && tallies[|events|] == tally
  }

  lemma RanNothing(start: Sub, job: Job, world: World)
    ensures Ran(start, job, world, [], start, Tally(0, 0, 0, 0))
  {
    assert RunsThrough(job, world, [], [start], [Tally(0, 0, 0, 0)]);
  }

  lemma RanOneMore(start: Sub, job: Job, world: World, events: seq<Event>, machine: Sub, tally: Tally, event: Event)
    requires Ran(start, job, world, events, machine, tally)
    requires AtPoint(machine, event) && IsAnswer(world, tally, event)
    ensures Ran(start, job, world, events + [event], Apply(machine, job, event), Counted(tally, event))
  {
    var states: seq<Sub>, tallies: seq<Tally> :|
      && RunsThrough(job, world, events, states, tallies)
      && states[0] == start && states[|events|] == machine && tallies[|events|] == tally;
    var states', tallies' := states + [Apply(machine, job, event)], tallies + [Counted(tally, event)];
    forall k: nat | k < |events + [event]|
      ensures StepAt(job, world, events + [event], states', tallies', k)
    {
      if k < |events| {
        assert StepAt(job, world, events, states, tallies, k);
      }
    }
    assert RunsThrough(job, world, events + [event], states', tallies');
  }

  /** What the code did is a run of the machine's program. */
  lemma {:induction false} StatesAreATrace(
      job: Job, world: World, events: seq<Event>, states: seq<Sub>, tallies: seq<Tally>)
    requires RunsThrough(job, world, events, states, tallies)
    ensures IsTrace(states[0], job, events) && RunOf(states[0], job, events) == states[|events|]
    decreases |events|
  {
    if events != [] {
      var last := |events| - 1;
      var before := events[..last];
      var states', tallies' := states[..last + 1], tallies[..last + 1];
      forall k: nat | k < last ensures StepAt(job, world, before, states', tallies', k) {
        assert StepAt(job, world, events, states, tallies, k);
      }
      StatesAreATrace(job, world, before, states', tallies');
      assert StepAt(job, world, events, states, tallies, last);
      OneMoreStep(states[0], job, before, events[last]);
      assert events == before + [events[last]];
    }
  }

  lemma RanIsATrace(start: Sub, job: Job, world: World, events: seq<Event>, machine: Sub, tally: Tally)
    requires Ran(start, job, world, events, machine, tally)
    ensures IsTrace(start, job, events) && RunOf(start, job, events) == machine
  {
    var states: seq<Sub>, tallies: seq<Tally> :|
      && RunsThrough(job, world, events, states, tallies)
      && states[0] == start && states[|events|] == machine && tallies[|events|] == tally;
    StatesAreATrace(job, world, events, states, tallies);
  }

  // ---------------------------------------------------------------------------------- the code

  class Submission {
    const job: Job
    const world: World
    /** The journal's entry for the digest. */
    var entry: Option<JournalEntry>
    /** How often each kind of answer was asked for. */
    var sends: nat
    var rounds: nat
    var windows: nat
    var writes: nat

    ghost const start: Sub
    ghost var events: seq<Event>
    ghost var machine: Sub

    ghost predicate Valid()
      reads this
    {
      Ran(start, job, world, events, machine, Asked()) && machine.entry == entry
    }

    ghost function Asked(): Tally
      reads this
    {
      Tally(sends, rounds, windows, writes)
    }

    constructor (job: Job, world: World, entry: Option<JournalEntry>, ghost start: Sub)
      requires start.entry == entry
      ensures Valid() && events == [] && machine == start
      ensures this.job == job && this.world == world && this.start == start
    {
      this.job, this.world, this.entry, this.start := job, world, entry, start;
      sends, rounds, windows, writes, events, machine := 0, 0, 0, 0, [], start;
      RanNothing(start, job, world);
    }

    /** The machine takes the step the code has just taken, `tally` being what had been asked before it. */
    ghost method Step(event: Event, tally: Tally)
      requires Ran(start, job, world, events, machine, tally)
      requires AtPoint(machine, event) && IsAnswer(world, tally, event)
      modifies `events, `machine
      ensures Ran(start, job, world, events, machine, Counted(tally, event)) && events == old(events) + [event]
      ensures machine == Apply(old(machine), job, event)
    {
      RanOneMore(start, job, world, events, machine, tally, event);
      events, machine := events + [event], Apply(machine, job, event);
    }

    /** A step that only the program takes. */
    ghost method LocalStep(event: Event)
      requires Valid() && AtPoint(machine, event) && Apply(machine, job, event).entry == entry
      requires event.CallSubmit? || event.CallResubmit? || event.CallReconcile? || event.CallSettle?
               || event.Proceed? || event.LeaveJournal? || event.Return?
      modifies `events, `machine
      ensures Valid() && events == old(events) + [event]
      ensures machine == Apply(old(machine), job, event)
    {
      Step(event, Asked());
    }

    method Execute() returns (reply: Reply)
      requires Valid() && machine.pc.Attempt?
      modifies this
      ensures Valid() && old(events) <= events && entry == old(entry)
      ensures Asked() == old(Asked()).(sends := old(sends) + 1)
      ensures reply == world.ReplyTo(old(sends))
      ensures machine.pc == if reply.RetryableReply? && old(machine.pc.attempts) + 1 < MaxSends(job.limits)
                            then Attempt(old(machine.pc.resent), old(machine.pc.attempts) + 1)
                            else Replied(old(machine.pc.resent), old(machine.pc.attempts) + 1, reply)
    {
      SendCopy();
      reply := world.ReplyTo(sends - 1);
      Step(Receive(reply), Asked());
    }

    method SendCopy()
      requires Valid() && machine.pc.Attempt?
      modifies this
      ensures Valid() && old(events) <= events && entry == old(entry)
      ensures Asked() == old(Asked()).(sends := old(sends) + 1)
      ensures machine == Apply(old(machine), job, Send(world.GoesOut(old(sends))))
    {
      Step(Send(world.GoesOut(sends)), Asked());
      sends := sends + 1;
    }

    method AskChain() returns (answer: Answer)
      requires Valid() && machine.pc.Recovering?
      modifies this
      ensures Valid() && old(events) <= events && entry == old(entry)
      ensures Asked() == old(Asked()).(rounds := old(rounds) + 1) && answer == world.Answer(old(rounds))
      ensures machine.pc == if answer.Unknown? && old(machine.pc.rechecks) > 0
                            then Recovering(old(machine.pc.task), old(machine.pc.rechecks) - 1)
                            else Recording(old(machine.pc.task), answer)
    {
      answer := world.Answer(rounds);
      Step(Round(answer), Asked());
      rounds := rounds + 1;
    }

    /** Whether the window has closed: another chain's bytes are not asked about, and a clock that cannot be
        read closes nothing. */
    method CheckWindow() returns (closed: bool)
      requires Valid() && machine.pc.CheckingWindow?
      modifies this
      ensures Valid() && old(events) <= events && entry == old(entry)
      ensures Asked() == old(Asked()).(windows := old(windows) + 1)
      ensures closed == NotSentAgain(job, world.ClockAt(old(windows)))
      ensures closed == ResendClosed(job, world.ClockAt(old(windows)))
      ensures machine == Apply(old(machine), job, Window(world.ClockAt(old(windows))))
    {
      var clock := world.ClockAt(windows);
      if ChainOfSigned(job.signed) != None && ChainOfSigned(job.signed) != Some(job.limits.chainId) {
        closed := true;
      } else {
        ExpiryIsWhatTheClockShows(job.limits.config, job.signed, clock);
        var observed := ExpiryClosed(job.limits.config, job.signed, clock);
        closed := if observed.None? then false else observed.value;
      }
      Step(Window(clock), Asked());
      windows := windows + 1;
    }

    /** One journal write, of the entry the machine writes here. */
    method Write(next: JournalEntry) returns (fate: WriteFate)
      requires Valid() && AtPoint(machine, WriteJournal(world.FateOf(writes), world.TimeOf(writes)))
      requires Apply(machine, job, WriteJournal(world.FateOf(writes), world.TimeOf(writes))).entry ==
               Put(entry, next, world.FateOf(writes))
      modifies this
      ensures Valid() && old(events) <= events
      ensures Asked() == old(Asked()).(writes := old(writes) + 1) && fate == world.FateOf(old(writes))
      ensures entry == if fate == LostWrite then old(entry) else Some(next)
      ensures machine == Apply(old(machine), job, WriteJournal(fate, world.TimeOf(old(writes))))
    {
      fate := world.FateOf(writes);
      Step(WriteJournal(fate, world.TimeOf(writes)), Asked());
      writes := writes + 1;
      entry := Put(entry, next, fate);
    }

    /** The rounds of a settle: until the chain has an answer or none are left. */
    method AskRounds(attempts: nat, resend: bool, rechecks: nat) returns (answer: Answer)
      requires Valid() && machine.pc == Recovering(Settle(attempts, resend), rechecks)
      modifies this
      ensures Valid() && old(events) <= events && entry == old(entry)
      ensures AskedUntilKnown(world, old(rounds), rounds, rechecks)
      ensures Asked() == old(Asked()).(rounds := rounds) && answer == world.Answer(rounds - 1)
      ensures machine.pc == Recording(Settle(attempts, resend), answer)
    {
      answer := AskChain();
      var round := 0;
      while round < rechecks && answer.Unknown?
        invariant Valid() && old(events) <= events && entry == old(entry) && round <= rechecks
        invariant Asked() == old(Asked()).(rounds := rounds) && rounds == old(rounds) + round + 1
        invariant answer == world.Answer(rounds - 1) && AllUnknown(world, old(rounds), rounds - 1)
        invariant machine.pc == if answer.Unknown? && round < rechecks
                                then Recovering(Settle(attempts, resend), rechecks - round - 1)
                                else Recording(Settle(attempts, resend), answer)
      {
        answer := AskChain();
        round := round + 1;
      }
    }

    /** `settle` and `record`: the rounds, then the record of the last answer. */
    method SettleAndRecord(attempts: nat, resend: bool, rechecks: nat) returns (answer: Answer)
      requires Valid() && machine.pc == Recovering(Settle(attempts, resend), rechecks)
      modifies this
      ensures Valid() && old(events) <= events
      ensures Settles(job, world, Span(old(Asked()), old(entry), Asked(), entry), attempts, rechecks)
      ensures answer == world.Answer(rounds - 1)
      ensures machine.pc == AfterRecord(Settle(attempts, resend), answer)
    {
      answer := AskRounds(attempts, resend, rechecks);
      var fate := Write(EntryOf(job.signed, Settle(attempts, resend), answer, world.TimeOf(writes)));
    }

    /** The same, answered as the outcome of the call. */
    method Settled(attempts: nat, rechecks: nat) returns (outcome: Outcome)
      requires Valid() && machine.pc == Recovering(Settle(attempts, false), rechecks)
      modifies this
      ensures Valid() && old(events) <= events
      ensures SettlesAs(job, world, Span(old(Asked()), old(entry), Asked(), entry), attempts, rechecks, outcome)
      ensures machine.pc == Returning(outcome)
    {
      var answer := SettleAndRecord(attempts, false, rechecks);
      outcome := OutcomeOf(answer);
    }

    /** The execute attempts: a retryable failure is sent again as the identical bytes, while any are left. */
    method Attempts(resent: bool) returns (attempts: nat, reply: Reply)
      requires Valid() && machine.pc == Attempt(resent, 0)
      modifies this
      ensures Valid() && old(events) <= events && entry == old(entry)
      ensures machine.pc == Replied(resent, attempts, reply)
      ensures Tries(job, world, old(sends), sends)
      ensures Asked() == old(Asked()).(sends := old(sends) + attempts) && reply == world.ReplyTo(sends - 1)
    {
      reply := Execute();
      attempts := 1;
      while reply.RetryableReply? && attempts < job.limits.resubmitAttempts
        invariant Valid() && old(events) <= events && entry == old(entry)
        invariant 1 <= attempts <= MaxSends(job.limits)
        invariant sends == old(sends) + attempts
        invariant rounds == old(rounds) && windows == old(windows) && writes == old(writes)
        invariant reply == world.ReplyTo(sends - 1) && AllRetryable(world, old(sends), sends - 1)
        invariant machine.pc == if reply.RetryableReply? && attempts < MaxSends(job.limits)
                                then Attempt(resent, attempts) else Replied(resent, attempts, reply)
        decreases job.limits.resubmitAttempts - attempts
      {
        reply := Execute();
        attempts := attempts + 1;
      }
    }

    /** What follows an answer that is not terminal: the refusal, taken at its word only on a first send, or
        the chain is asked. */
    method AfterReply(resent: bool, attempts: nat, reply: Reply) returns (outcome: Outcome)
      requires Valid() && machine.pc == Replied(resent, attempts, reply) && !Terminal(reply)
      modifies this
      ensures Valid() && old(events) <= events
      ensures Concludes(job, world, resent, attempts, reply, Span(old(Asked()), old(entry), Asked(), entry), outcome)
      ensures machine.pc == Returning(outcome)
    {
      LocalStep(Proceed);
      if !resent && attempts == 1 && reply.RefusedReply? {
        var fate := Write(NotAppliedEntry(job.signed.digest, Refused, world.TimeOf(writes)));
        return TransportError;
      }
      var conflicted := reply.OtherReply? && reply.conflict;
      outcome := Settled(attempts, if conflicted then LOCK_CONFLICT_RECHECKS else 0);
    }

    /** The attempts, the record of a terminal answer, and what is left. */
    method Deliver(resent: bool) returns (outcome: Outcome)
      requires Valid() && machine.pc == Attempt(resent, 0)
      modifies this
      ensures Valid() && old(events) <= events
      ensures Delivers(job, world, resent, Span(old(Asked()), old(entry), Asked(), entry), outcome)
      ensures machine.pc == Returning(outcome)
    {
      var attempts, reply := Attempts(resent);
      outcome := Conclude(resent, attempts, reply);
    }

    method Conclude(resent: bool, attempts: nat, reply: Reply) returns (outcome: Outcome)
      requires Valid() && machine.pc == Replied(resent, attempts, reply)
      modifies this
      ensures Valid() && old(events) <= events
      ensures Concludes(job, world, resent, attempts, reply, Span(old(Asked()), old(entry), Asked(), entry), outcome)
      ensures machine.pc == Returning(outcome)
    {
      match reply {
        case ExecutedReply =>
          var fate := Write(ExecutedEntry(job.signed.digest, world.TimeOf(writes)));
          outcome := Succeeded;
        case FailedReply =>
          var fate := Write(FailedEntry(job.signed.digest, world.TimeOf(writes)));
          outcome := ExecutionFailedError;
        case _ =>
          outcome := AfterReply(resent, attempts, reply);
      }
    }

    /** `send`: the signed entry, and nothing is sent without it. */
    method SendBytes(resent: bool) returns (outcome: Outcome)
      requires Valid() && machine.pc == WriteSigned(resent)
      modifies this
      ensures Valid() && old(events) <= events
      ensures Sends(job, world, resent, Span(old(Asked()), old(entry), Asked(), entry), outcome)
      ensures machine.pc == Returning(outcome)
    {
      var fate := Write(SignedEntry(job.signed.digest, job.signed, world.TimeOf(writes)));
      if fate != Written {
        return JournalError;
      }
      outcome := Deliver(resent);
    }

    /** The call returns, and the next may begin. */
    ghost method Finish()
      requires Valid() && machine.pc.Returning?
      modifies `events, `machine
      ensures Valid() && events == old(events) + [Return] && machine == old(machine).(pc := Idle)
    {
      LocalStep(Return);
    }

    /** `resend`: nothing is sent whose window has closed, or for another chain. */
    method Resend() returns (outcome: Outcome)
      requires Valid() && machine.pc == CheckingWindow
      modifies this
      ensures Valid() && old(events) <= events
      ensures Resends(job, world, Span(old(Asked()), old(entry), Asked(), entry), outcome)
      ensures machine.pc == Returning(outcome)
    {
      var closed := CheckWindow();
      ghost var asked := Asked();
      if closed {
        outcome := Settled(1, 0);
      } else {
        outcome := SendBytes(true);
      }
      assert asked == OneClock(old(Asked()));
    }

    method Submit() returns (outcome: Outcome)
      requires Valid() && machine.pc.Idle?
      modifies this
      ensures Valid() && old(events) + [CallSubmit] <= events
      ensures Sends(job, world, false, Span(old(Asked()), old(entry), Asked(), entry), outcome)
      ensures machine.pc == Returning(outcome)
    {
      LocalStep(CallSubmit);
      outcome := SendBytes(false);
    }

    /** `reconcile`: a terminal answer goes over an entry that is held unresolved, and nowhere else. */
    method Reconcile(readable: bool) returns (outcome: Outcome)
      requires Valid() && machine.pc.Idle?
      modifies this
      ensures Valid() && old(events) + [CallReconcile] <= events
      ensures machine.pc == Returning(outcome)
      ensures Reconciles(job, world, readable, Span(old(Asked()), old(entry), Asked(), entry), outcome)
    {
      LocalStep(CallReconcile);
      outcome := AskAndRecord(readable);
    }

    method AskAndRecord(readable: bool) returns (outcome: Outcome)
      requires Valid() && machine.pc == Recovering(Task.Ask, 0)
      modifies this
      ensures Valid() && old(events) <= events
      ensures machine.pc == Returning(outcome)
      ensures Reconciles(job, world, readable, Span(old(Asked()), old(entry), Asked(), entry), outcome)
    {
      var answer := AskChain();
      if answer.Unknown? || !readable || entry == None || !IsUnresolved(entry.value) {
        LocalStep(LeaveJournal(readable));
      } else {
        var fate := Write(EntryOf(job.signed, Task.Ask, answer, world.TimeOf(writes)));
      }
      outcome := OutcomeOf(answer);
    }

    /** `resubmit`: what the journal already settled is not sent again. */
    method Resubmit(readable: bool, readableAgain: bool) returns (outcome: Outcome)
      requires Valid() && machine.pc.Idle?
      modifies this
      ensures Valid() && old(events) + [CallResubmit(readable)] <= events
      ensures Resubmits(job, world, readable, readableAgain, Span(old(Asked()), old(entry), Asked(), entry), outcome)
      ensures machine.pc == Returning(outcome)
    {
      LocalStep(CallResubmit(readable));
      if !readable {
        return JournalError;
      }
      if entry.Some? {
        match entry.value {
          case ExecutedEntry(_, _) =>
            outcome := AskAndRecord(readableAgain);
            return;
          case FailedEntry(_, _) =>
            outcome := AskAndRecord(readableAgain);
            return;
          case NotAppliedEntry(_, evidence, _) =>
            return NotAppliedError(evidence);
          case _ =>
        }
      }
      outcome := Resend();
    }

    /** `reconcileAll`, for one listed entry: settled, and sent again when asked to and still unknown. */
    method SettleEntry(resubmit: bool) returns (outcome: Outcome)
      requires Valid() && machine.pc.Idle? && entry.Some? && IsUnresolved(entry.value)
      modifies this
      ensures Valid() && old(events) + [CallSettle(resubmit)] <= events
      ensures SettlesEntry(job, world, resubmit, Span(old(Asked()), old(entry), Asked(), entry), outcome)
      ensures machine.pc.Returning?
      ensures outcome == machine.pc.outcome ||
              (outcome == UnknownError && (machine.pc.outcome.JournalError? || machine.pc.outcome.TransportError?))
    {
      var attempts := if entry.value.UnknownEntry? then entry.value.attempts else 1;
      LocalStep(CallSettle(resubmit));
      var answer := SettleAndRecord(attempts, resubmit, 0);
      if !resubmit || !answer.Unknown? {
        return OutcomeOf(answer);
      }
      ghost var settled := entry;
      outcome := ResendAndReport();
      assert SettlesThenResends(job, world, Span(old(Asked()), old(entry), Asked(), entry), settled, outcome);
    }

    /** A re-send that was not made, or was refused, leaves the entry as unknown as it was. */
    method ResendAndReport() returns (outcome: Outcome)
      requires Valid() && machine.pc == CheckingWindow
      modifies this
      ensures Valid() && old(events) <= events
      ensures ReportsResend(job, world, Span(old(Asked()), old(entry), Asked(), entry), outcome)
      ensures machine.pc.Returning?
      ensures outcome == machine.pc.outcome ||
              (outcome == UnknownError && (machine.pc.outcome.JournalError? || machine.pc.outcome.TransportError?))
    {
      outcome := Resend();
      match outcome {
        case JournalError => outcome := UnknownError;
        case TransportError => outcome := UnknownError;
        case _ =>
      }
    }
  }

  /** Whatever the code has done up to here, with the chain moving in between however it did: what it returns
      is honest about the chain as it is then. */
  lemma CallsAreHonest(
      s: Sub, job: Job, history: seq<Event>, world: World, machine: Sub, tally: Tally, outcome: Outcome)
    requires Initial(s, job) && IsHistory(s, job, history)
    requires Ran(s, job, world, WithoutMoves(history), machine, tally) && machine.pc == Returning(outcome)
    ensures var run, digest := After(s, job, history).run, job.signed.digest;
            && (outcome == Succeeded ==> Applied(Chain.Last(run), digest, true))
            && (outcome == ExecutionFailedError ==> Applied(Chain.Last(run), digest, false))
            && (outcome.NotAppliedError? || outcome.TransportError? ==> !Chain.OnChain(Chain.Last(run), digest))
  {
    RanIsATrace(s, job, world, WithoutMoves(history), machine, tally);
    HistoriesAreTraces(s, job, history);
    OutcomesAreHonest(s, job, history);
  }
}
