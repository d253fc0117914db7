/** What `submit`, `resubmit`, `reconcile` and `reconcileAll` do when nothing stops them, said of what the
    call asked and was answered, the journal's entry before and after it, and what it returned. */
module Calls {
  import opened Domain
  import opened Reconcile
  import opened Submit

  /** The k-th answer of each kind: an execute attempt, whether its bytes went out, a reconcile round, the
      clock a re-send reads, a write of the journal, and the time of that write. */
  datatype World = World(
    replies: nat -> Reply, goesOut: nat -> bool, rounds: nat -> Answer, windows: nat -> Clock,
    fates: nat -> WriteFate, clock: nat -> int)
  {
    function ReplyTo(attempt: nat): Reply { replies(attempt) }

    function GoesOut(attempt: nat): bool { goesOut(attempt) }

    function Answer(round: nat): Answer { rounds(round) }

    function ClockAt(window: nat): Clock { windows(window) }

    function FateOf(write: nat): WriteFate { fates(write) }

    function TimeOf(write: nat): int { clock(write) }
  }

  /** How many of each kind have been asked for. */
  datatype Tally = Tally(sends: nat, rounds: nat, windows: nat, writes: nat)

  function OneWrite(tally: Tally): Tally {
    tally.(writes := tally.writes + 1)
  }

  function OneRound(tally: Tally): Tally {
    tally.(rounds := tally.rounds + 1)
  }

  function OneClock(tally: Tally): Tally {
    tally.(windows := tally.windows + 1)
  }

  function RoundsUpTo(tally: Tally, rounds: nat): Tally {
    tally.(rounds := rounds)
  }

  function SendsUpTo(tally: Tally, sends: nat): Tally {
    tally.(sends := sends)
  }

  /** A call, or a part of one: what had been asked and what the entry was before and after it. */
  datatype Span = Span(before: Tally, was: Option<JournalEntry>, after: Tally, entry: Option<JournalEntry>)

  /** What is left of it, from a later point on. */
  function From(span: Span, before: Tally, was: Option<JournalEntry>): Span {
    Span(before, was, span.after, span.entry)
  }

  /** The outcome is what the chain answered. */
  predicate Reports(outcome: Outcome, answer: Answer) {
    match answer
    case Executed(_) => outcome == Succeeded
    case ExecutionFailed(_) => outcome == ExecutionFailedError
    case NotApplied(evidence) => outcome == NotAppliedError(evidence)
    case Unknown => outcome == UnknownError
  }

  /** The entry says what the chain answered; an answer that is still unknown keeps the bytes and the
      attempts. */
  predicate IsRecord(entry: JournalEntry, signed: Signed, answer: Answer, attempts: nat, at: int) {
    match answer
    case Executed(_) => entry == ExecutedEntry(signed.digest, at)
    case ExecutionFailed(_) => entry == FailedEntry(signed.digest, at)
    case NotApplied(evidence) => entry == NotAppliedEntry(signed.digest, evidence, at)
    case Unknown => entry == UnknownEntry(signed.digest, signed, attempts, at)
  }

  /** One write, of this entry, which may be lost. */
  predicate Wrote(world: World, span: Span, entry: JournalEntry) {
    && span.after.writes == span.before.writes + 1
    && span.entry == if world.FateOf(span.before.writes) == LostWrite then span.was else Some(entry)
  }

  predicate AllUnknown(world: World, from: nat, to: nat) {
    forall k :: from <= k < to ==> world.Answer(k).Unknown?
  }

  predicate AllRetryable(world: World, from: nat, to: nat) {
    forall k :: from <= k < to ==> world.ReplyTo(k).RetryableReply?
  }

  /** Rounds were asked from `from` on, up to the first that is known, or until the re-checks ran out. */
  predicate AskedUntilKnown(world: World, from: nat, to: nat, rechecks: nat) {
    && from < to <= from + 1 + rechecks
    && AllUnknown(world, from, to - 1)
    && (world.Answer(to - 1).Unknown? ==> to == from + 1 + rechecks)
  }

  /** The chain was asked, at least once, and its last answer is the one recorded. */
  predicate Settles(job: Job, world: World, span: Span, attempts: nat, rechecks: nat) {
    && AskedUntilKnown(world, span.before.rounds, span.after.rounds, rechecks)
    && span.after == OneWrite(RoundsUpTo(span.before, span.after.rounds))
    && (world.FateOf(span.before.writes) == LostWrite ==> span.entry == span.was)
    && (world.FateOf(span.before.writes) != LostWrite ==>
          && span.entry.Some?
          && IsRecord(span.entry.value, job.signed, world.Answer(span.after.rounds - 1), attempts,
                      world.TimeOf(span.before.writes)))
  }

  predicate SettlesAs(job: Job, world: World, span: Span, attempts: nat, rechecks: nat, outcome: Outcome) {
    Settles(job, world, span, attempts, rechecks) && Reports(outcome, world.Answer(span.after.rounds - 1))
  }

  /** The bytes were sent at least once, again only after retryable failures, and given up on after one only
      when the attempts were used up. */
  predicate Tries(job: Job, world: World, from: nat, to: nat) {
    var most := if job.limits.resubmitAttempts > 1 then job.limits.resubmitAttempts else 1;
    && from < to <= from + most
    && AllRetryable(world, from, to - 1)
    && (world.ReplyTo(to - 1).RetryableReply? ==> to == from + most)
  }

  /** What follows the last reply: a terminal one is recorded; a refusal is taken at its word on the first
      send of a first submit only; after anything else the chain is asked, a lock conflict up to three times
      more. */
  predicate Concludes(job: Job, world: World, resent: bool, attempts: nat, reply: Reply, span: Span, outcome: Outcome) {
    var digest, at := job.signed.digest, world.TimeOf(span.before.writes);
    var onlyWrote := span.after == OneWrite(span.before);
    match reply
    case ExecutedReply => outcome == Succeeded && onlyWrote && Wrote(world, span, ExecutedEntry(digest, at))
    case FailedReply => outcome == ExecutionFailedError && onlyWrote && Wrote(world, span, FailedEntry(digest, at))
    case RefusedReply =>
      if !resent && attempts == 1
      then outcome == TransportError && onlyWrote && Wrote(world, span, NotAppliedEntry(digest, Refused, at))
      else SettlesAs(job, world, span, attempts, 0, outcome)
    case OtherReply(conflict) => SettlesAs(job, world, span, attempts, if conflict then 3 else 0, outcome)
    case RetryableReply => SettlesAs(job, world, span, attempts, 0, outcome)
    case ForeignReply => SettlesAs(job, world, span, attempts, 0, outcome)
  }

  /** The signed entry first, and nothing is sent if it could not be written; then the attempts, and what
      follows the last of them. */
  predicate Sends(job: Job, world: World, resent: bool, span: Span, outcome: Outcome) {
    var entry := SignedEntry(job.signed.digest, job.signed, world.TimeOf(span.before.writes));
    if world.FateOf(span.before.writes) != Written then
      && outcome == JournalError && span.after == OneWrite(span.before)
      && Wrote(world, span, entry)
    else
      Delivers(job, world, resent, From(span, OneWrite(span.before), Some(entry)), outcome)
  }

  /** The attempts, and what follows the last of them. */
  predicate Delivers(job: Job, world: World, resent: bool, span: Span, outcome: Outcome) {
    && Tries(job, world, span.before.sends, span.after.sends)
    && Concludes(job, world, resent, span.after.sends - span.before.sends, world.ReplyTo(span.after.sends - 1),
                 From(span, SendsUpTo(span.before, span.after.sends), span.was), outcome)
  }

  /** The window of the bytes is closed by this clock, or they are another chain's. */
  predicate NotSentAgain(job: Job, clock: Clock) {
    || NamesAnotherChain(job.limits.chainId, job.signed)
    || ShowsClosed(job.limits.config, job.signed, clock)
  }

  /** The bytes are sent again unless their window has closed, or they are another chain's: then the chain
      is asked. */
  predicate Resends(job: Job, world: World, span: Span, outcome: Outcome) {
    var rest := From(span, OneClock(span.before), span.was);
    if NotSentAgain(job, world.ClockAt(span.before.windows)) then SettlesAs(job, world, rest, 1, 0, outcome)
    else Sends(job, world, true, rest, outcome)
  }

  /** One round; its answer is recorded when it is terminal, the journal can be read and holds the digest
      unresolved, and otherwise nothing is written. */
  predicate Reconciles(job: Job, world: World, readable: bool, span: Span, outcome: Outcome) {
    var answer, asked := world.Answer(span.before.rounds), OneRound(span.before);
    && Reports(outcome, answer)
    && if readable && !answer.Unknown? && span.was.Some? && IsUnresolved(span.was.value) then
         && span.after == OneWrite(asked)
         && (world.FateOf(asked.writes) == LostWrite ==> span.entry == span.was)
         && (world.FateOf(asked.writes) != LostWrite ==>
               span.entry.Some? && IsRecord(span.entry.value, job.signed, answer, 0, world.TimeOf(asked.writes)))
       else span.after == asked && span.entry == span.was
  }

  /** What the journal holds decides: bytes it has not settled are sent again; what it has settled is answered
      from it, or asked about, and never sent. */
  predicate Resubmits(job: Job, world: World, readable: bool, readableAgain: bool, span: Span, outcome: Outcome) {
    var nothing := span.after == span.before && span.entry == span.was;
    if !readable then outcome == JournalError && nothing
    else
      match span.was
      case None => Resends(job, world, span, outcome)
      case Some(entry) =>
        match entry
        case SignedEntry(_, _, _) => Resends(job, world, span, outcome)
        case UnknownEntry(_, _, _, _) => Resends(job, world, span, outcome)
        case NotAppliedEntry(_, evidence, _) => outcome == NotAppliedError(evidence) && nothing
        case ExecutedEntry(_, _) => Reconciles(job, world, readableAgain, span, outcome)
        case FailedEntry(_, _) => Reconciles(job, world, readableAgain, span, outcome)
  }

  /** How often the bytes of an unresolved entry were sent, as far as it says. */
  function AttemptsOf(entry: JournalEntry): nat {
    if entry.UnknownEntry? then entry.attempts else 1
  }

  /** A re-send that was not made, or was refused, is reported as unknown as it was. */
  predicate ReportsResend(job: Job, world: World, span: Span, outcome: Outcome) {
    || (Resends(job, world, span, outcome) && outcome != JournalError && outcome != TransportError)
    || (outcome == UnknownError &&
        (Resends(job, world, span, JournalError) || Resends(job, world, span, TransportError)))
  }

  /** One unresolved entry is settled with one round; when it is still unknown, and only then, its bytes are
      sent again if that was asked for. */
  ghost predicate SettlesEntry(job: Job, world: World, resubmit: bool, span: Span, outcome: Outcome)
    requires span.was.Some?
  {
    var answer := world.Answer(span.before.rounds);
    if !resubmit || !answer.Unknown?
    then SettlesAs(job, world, span, AttemptsOf(span.was.value), 0, outcome)
    else exists entry :: SettlesThenResends(job, world, span, entry, outcome)
  }

  ghost predicate SettlesThenResends(
      job: Job, world: World, span: Span, entry: Option<JournalEntry>, outcome: Outcome)
    requires span.was.Some?
  {
    var settled := OneWrite(OneRound(span.before));
    && Settles(job, world, Span(span.before, span.was, settled, entry), AttemptsOf(span.was.value), 0)
    && ReportsResend(job, world, From(span, settled, entry), outcome)
  }

  // ------------------------------------------------------------------------ what that comes to

  /** A call that sends, sends: once its signed entry is written the bytes go out, and no more often than the
      attempts allow. */
  lemma SendsAtLeastOnce(job: Job, world: World, resent: bool, span: Span, outcome: Outcome)
    requires Sends(job, world, resent, span, outcome) && world.FateOf(span.before.writes) == Written
    ensures span.before.sends < span.after.sends
    ensures span.after.sends <= span.before.sends + MaxSends(job.limits)
  {
  }

  /** A send whose last reply is not terminal, and not the refusal of a first send, asks the chain before it
      returns, and returns what the chain said. */
  lemma SendsThenAsks(job: Job, world: World, resent: bool, span: Span, outcome: Outcome)
    requires Sends(job, world, resent, span, outcome) && world.FateOf(span.before.writes) == Written
    ensures var reply := world.ReplyTo(span.after.sends - 1);
            && !reply.ExecutedReply? && !reply.FailedReply?
            && !(reply.RefusedReply? && !resent && span.after.sends == span.before.sends + 1) ==>
              && span.before.rounds < span.after.rounds
              && Reports(outcome, world.Answer(span.after.rounds - 1))
  {
  }

  /** What `resubmit` finds unsettled, in an open window of this chain, it sends. */
  lemma ResubmitsSend(job: Job, world: World, readableAgain: bool, span: Span, outcome: Outcome)
    requires Resubmits(job, world, true, readableAgain, span, outcome)
    requires span.was.Some? ==> IsUnresolved(span.was.value)
    ensures !NotSentAgain(job, world.ClockAt(span.before.windows)) && world.FateOf(span.before.writes) == Written ==>
              span.before.sends < span.after.sends
    ensures NotSentAgain(job, world.ClockAt(span.before.windows)) ==>
              span.before.sends == span.after.sends && span.before.rounds < span.after.rounds
  {
    if !NotSentAgain(job, world.ClockAt(span.before.windows)) && world.FateOf(span.before.writes) == Written {
      SendsAtLeastOnce(job, world, true, From(span, OneClock(span.before), span.was), outcome);
    }
  }

  /** What the journal has settled is never sent again, keeps its entry, and is answered: a `NotApplied` from
      the entry itself, the others by asking the chain once. */
  lemma SettledIsAnswered(job: Job, world: World, readableAgain: bool, span: Span, outcome: Outcome)
    requires Resubmits(job, world, true, readableAgain, span, outcome)
    requires span.was.Some? && !IsUnresolved(span.was.value)
    ensures span.after.sends == span.before.sends && span.entry == span.was
    ensures span.was.value.NotAppliedEntry? ==> outcome == NotAppliedError(span.was.value.evidence)
    ensures !span.was.value.NotAppliedEntry? ==> Reports(outcome, world.Answer(span.before.rounds))
  {
  }

  /** `reconcileAll({ resubmit: true })` sends what one round left unknown, in an open window of this chain,
      once its signed entry is written. */
  lemma UnknownEntriesAreSentAgain(job: Job, world: World, span: Span, outcome: Outcome)
    requires span.was.Some? && SettlesEntry(job, world, true, span, outcome)
    requires world.Answer(span.before.rounds).Unknown?
    requires !NotSentAgain(job, world.ClockAt(span.before.windows)) && world.FateOf(span.before.writes + 1) == Written
    ensures span.before.sends < span.after.sends
  {
    var entry :| SettlesThenResends(job, world, span, entry, outcome);
  }
}
