/** `Tx.reconcile`: what happened to a transaction that was sent and never answered for. Reads may be
    stale, pruned, missing or failed; what they say is true of some state of the chain. */
module Reconcile {
  import opened Domain
  import opened Chain

  // ------------------------------------------------------------------------------- the reads

  /** One `getTransaction`. The node may answer for another digest than the one asked about. */
  datatype Lookup = Found(effects: Effects) | Miss | LookupFailed

  datatype InputState = Absent | Present(version: Version, previous: Option<Digest>) | StateFailed

  /** One pinned reference, what reading its object said, and what reading the effects of the
      transaction that last mutated it said. */
  datatype Asked = Asked(pin: PinnedRef, state: InputState, consumer: Lookup)

  /** The epoch and the chain time the node reports; `None` is a read that failed. */
  datatype Clock = Clock(epoch: Option<nat>, time: Option<nat>)

  datatype EpochStart = FirstCheckpoint(checkpoint: nat) | NotSaid | NotServed | StartFailed

  /** How far back the node says it reaches; `NoLedger` is a transport that does not report it. */
  datatype Ledger = NoLedger | LedgerFailed | Reaches(lowest: Option<nat>, start: EpochStart)

  datatype Reads = Reads(
    first: Lookup,
    firstClock: Clock, second: Lookup,
    secondClock: Clock, third: Lookup,
    asked: seq<Asked>,
    again: Lookup,
    ledger: Ledger)

  datatype Config = Config(epochThenMiss: bool, expiryMargin: nat)

  // -------------------------------------------------------------------------- input evidence

  datatype Verdict = Unmoved | Ours | Other(winner: Digest) | Inconclusive | ReadFailed

  /** What one pinned reference proves about `digest`. */
  function VerdictOf(digest: Digest, asked: Asked): Verdict {
    match asked.state
    case StateFailed => ReadFailed
    case Absent => Inconclusive
    case Present(version, previous) =>
      if version <= asked.pin.version then Unmoved
      else
        match previous
        case None => Inconclusive
        case Some(winner) => if winner == digest then Ours else ConsumerVerdict(winner, asked)
  }

  function ConsumerVerdict(winner: Digest, asked: Asked): Verdict {
    match asked.consumer
    case LookupFailed => ReadFailed
    case Miss => Inconclusive
    case Found(fx) =>
      if fx.digest == winner && asked.pin.objectId in fx.changed &&
         fx.changed[asked.pin.objectId].input == Some(asked.pin.version)
      then Other(winner)
      else Inconclusive
  }

  datatype InputEvidence =
    | NoEvidence
    | ConsumedByOther(objectId: ObjectId, winner: Digest)
    | AppliedByUs(objectId: ObjectId)
    | Unreadable(objectId: ObjectId)
    | EvidenceFailed

  /** The first conclusive reference, else the first inconclusive one. */
  function EvidenceOf(digest: Digest, asked: seq<Asked>): InputEvidence {
    if asked == [] then NoEvidence
    else
      var rest := EvidenceOf(digest, asked[1..]);
      match VerdictOf(digest, asked[0])
      case Unmoved => rest
      case Ours => AppliedByUs(asked[0].pin.objectId)
      case Other(winner) => ConsumedByOther(asked[0].pin.objectId, winner)
      case ReadFailed => EvidenceFailed
      case Inconclusive =>
        if rest.NoEvidence? || rest.Unreadable? then Unreadable(asked[0].pin.objectId) else rest
  }

  /** `inputEvidence`: every pinned reference is tried; an inconclusive one is only remembered. */
  method GatherEvidence(digest: Digest, asked: seq<Asked>) returns (evidence: InputEvidence)
    ensures evidence == EvidenceOf(digest, asked)
  {
    var inconclusive := NoEvidence;
    var i := 0;
    while i < |asked|
      invariant i <= |asked|
      invariant inconclusive.NoEvidence? || inconclusive.Unreadable?
      invariant var rest := EvidenceOf(digest, asked[i..]);
                EvidenceOf(digest, asked) ==
                if inconclusive.Unreadable? && (rest.NoEvidence? || rest.Unreadable?) then inconclusive else rest
    {
      match VerdictOf(digest, asked[i]) {
        case Unmoved =>
        case Ours =>
          return AppliedByUs(asked[i].pin.objectId);
        case Other(winner) =>
          return ConsumedByOther(asked[i].pin.objectId, winner);
        case ReadFailed =>
          return EvidenceFailed;
        case Inconclusive =>
          if inconclusive.NoEvidence? {
            inconclusive := Unreadable(asked[i].pin.objectId);
          }
      }
      i := i + 1;
    }
    return inconclusive;
  }

  // --------------------------------------------------------------------------------- recover

  datatype Answer =
    | Executed(effects: Effects)
    | ExecutionFailed(effects: Effects)
    | NotApplied(evidence: Evidence)
    | Unknown

  /** A step of the recovery: an answer, a read that failed, or nothing yet. */
  datatype Step = Answered(answer: Answer) | TransportFailed | Continue(expired: bool)

  function Look(digest: Digest, lookup: Lookup): Step {
    match lookup
    case Found(fx) =>
      if fx.digest != digest then TransportFailed
      else Answered(if fx.success then Executed(fx) else ExecutionFailed(fx))
    case Miss => Continue(false)
    case LookupFailed => TransportFailed
  }

  predicate ClosedByEpoch(signed: Signed, clock: Clock) {
    MaxEpochOf(signed.expiration).Some? && clock.epoch.Some? && MaxEpochOf(signed.expiration).value < clock.epoch.value
  }

  predicate ClosedByTime(config: Config, signed: Signed, clock: Clock) {
    MaxTimestampOf(signed.expiration).Some? && clock.time.Some? &&
    MaxTimestampOf(signed.expiration).value + config.expiryMargin < clock.time.value
  }

  /** `expiryClosed`: the epoch is read first, the clock only when the epoch does not decide. */
  function ExpiryClosed(config: Config, signed: Signed, clock: Clock): Option<bool> {
    if MaxEpochOf(signed.expiration).Some? && clock.epoch.None? then None
    else if ClosedByEpoch(signed, clock) then Some(true)
    else if MaxTimestampOf(signed.expiration).Some? && clock.time.None? then None
    else Some(ClosedByTime(config, signed, clock))
  }

  /** Closed, then missing, then both again. */
  function ExpiryRounds(config: Config, signed: Signed, seen: Reads): Step {
    if !config.epochThenMiss then Continue(false)
    else
      match ExpiryClosed(config, signed, seen.firstClock)
      case None => TransportFailed
      case Some(false) => Continue(false)
      case Some(true) =>
        match Look(signed.digest, seen.second)
        case Answered(answer) => Answered(answer)
        case TransportFailed => TransportFailed
        case Continue(_) =>
          match ExpiryClosed(config, signed, seen.secondClock)
          case None => TransportFailed
          case Some(false) => Continue(false)
          case Some(true) =>
            match Look(signed.digest, seen.third)
            case Answered(answer) => Answered(answer)
            case TransportFailed => TransportFailed
            case Continue(_) => Continue(true)
  }

  datatype History = Covered | Unreported | Pruned | HistoryFailed

  /** `historyOf`: anything the node does not say counts as pruned. */
  function HistoryOf(ledger: Ledger): History {
    match ledger
    case NoLedger => Unreported
    case LedgerFailed => HistoryFailed
    case Reaches(None, _) => Pruned
    case Reaches(Some(lowest), start) =>
      if lowest == 0 then Covered
      else
        match start
        case FirstCheckpoint(first) => if lowest <= first then Covered else Pruned
        case NotSaid => Pruned
        case NotServed => Pruned
        case StartFailed => HistoryFailed
  }

  function Conclude(signed: Signed, expired: bool, seen: Reads): Step {
    var evidence := EvidenceOf(signed.digest, seen.asked);
    match evidence
    case EvidenceFailed => TransportFailed
    case AppliedByUs(_) =>
      // Positive evidence vetoes an expiry: ask once more for the receipt.
      var again := Look(signed.digest, seen.again);
      if again.Continue? then Answered(Unknown) else again
    case _ =>
      var history := HistoryOf(seen.ledger);
      if expired && history.HistoryFailed? then TransportFailed
      else if expired && !history.Pruned? then Answered(NotApplied(Expired))
      else Answered(if evidence.ConsumedByOther? then NotApplied(InputConsumed) else Unknown)
  }

  /** The bytes say which chain they are for, and it is not this one. */
  predicate OfAnotherChain(chainId: ChainId, signed: Signed) {
    ChainOfSigned(signed) != None && ChainOfSigned(signed) != Some(chainId)
  }

  /** `recover`, on the chain `chainId`. Without the bytes there is nothing to reason about. */
  function Recover(config: Config, chainId: ChainId, digest: Digest, signed: Option<Signed>, seen: Reads): Step {
    if signed.Some? && OfAnotherChain(chainId, signed.value) then Answered(Unknown)
    else
      match Look(digest, seen.first)
      case Answered(answer) => Answered(answer)
      case TransportFailed => TransportFailed
      case Continue(_) =>
        if signed.None? then Answered(Unknown)
        else
          match ExpiryRounds(config, signed.value, seen)
          case Answered(answer) => Answered(answer)
          case TransportFailed => TransportFailed
          case Continue(expired) => Conclude(signed.value, expired, seen)
  }

  /** `reconcile`: a read that failed says nothing, so no transport failure escapes. */
  function ReconcileAnswer(config: Config, chainId: ChainId, digest: Digest, signed: Option<Signed>, seen: Reads)
    : Answer
  {
    match Recover(config, chainId, digest, signed, seen)
    case Answered(answer) => answer
    case _ => Unknown
  }

  // --------------------------------------------------------- what is answered, from the reads alone

  predicate Conclusive(verdict: Verdict) {
    verdict.Ours? || verdict.Other?
  }

  predicate Deciding(verdict: Verdict) {
    Conclusive(verdict) || verdict == ReadFailed
  }

  /** The k-th reference is the first that ends the search: conclusive, or one whose reads failed. */
  predicate Decides(digest: Digest, asked: seq<Asked>, k: int) {
    && 0 <= k < |asked|
    && Deciding(VerdictOf(digest, asked[k]))
    && forall i :: 0 <= i < k ==> !Deciding(VerdictOf(digest, asked[i]))
  }

  ghost predicate DecidedAs(digest: Digest, asked: seq<Asked>, verdict: Verdict) {
    exists k :: Decides(digest, asked, k) && VerdictOf(digest, asked[k]) == verdict
  }

  /** What one reference proves, from what was read: we applied when the object, newer than pinned, names
      us; another consumed it when that one's own effects say it took exactly the pinned version. */
  lemma VerdictIsWhatWasRead(digest: Digest, asked: Asked)
    ensures var newer := asked.state.Present? && asked.state.version > asked.pin.version;
            var foreign := newer && asked.state.previous.Some? && asked.state.previous.value != digest;
            var verdict := VerdictOf(digest, asked);
            && (verdict.Unmoved? <==> asked.state.Present? && asked.state.version <= asked.pin.version)
            && (verdict.Ours? <==> newer && asked.state.previous == Some(digest))
            && (verdict.ReadFailed? <==> asked.state.StateFailed? || (foreign && asked.consumer.LookupFailed?))
            && (forall winner :: verdict == Other(winner) <==>
                  && newer && asked.state.previous == Some(winner) && winner != digest
                  && asked.consumer.Found? && asked.consumer.effects.digest == winner
                  && asked.pin.objectId in asked.consumer.effects.changed
                  && asked.consumer.effects.changed[asked.pin.objectId].input == Some(asked.pin.version))
  {
  }

  /** The clock shows the window closed: by the epoch, or by a time past the bound and the margin. */
  predicate ShowsClosed(config: Config, signed: Signed, clock: Clock) {
    var lastEpoch, until := MaxEpochOf(signed.expiration), MaxTimestampOf(signed.expiration);
    || (lastEpoch.Some? && clock.epoch.Some? && lastEpoch.value < clock.epoch.value)
    || ((lastEpoch.None? || clock.epoch.Some?) && until.Some? && clock.time.Some?
        && until.value + config.expiryMargin < clock.time.value)
  }

  /** A read the question needed failed. */
  predicate CannotTell(signed: Signed, clock: Clock) {
    var lastEpoch := MaxEpochOf(signed.expiration);
    || (lastEpoch.Some? && clock.epoch.None?)
    || (MaxTimestampOf(signed.expiration).Some? && clock.time.None?
        && !(lastEpoch.Some? && lastEpoch.value < clock.epoch.value))
  }

  lemma ExpiryIsWhatTheClockShows(config: Config, signed: Signed, clock: Clock)
    ensures ExpiryClosed(config, signed, clock) == None <==> CannotTell(signed, clock)
    ensures ExpiryClosed(config, signed, clock) == Some(true) <==> ShowsClosed(config, signed, clock)
  {
  }

  /** The lookups that are made, each only after those before it missed. */
  predicate SecondIsMade(config: Config, signed: Signed, seen: Reads) {
    seen.first.Miss? && config.epochThenMiss && ShowsClosed(config, signed, seen.firstClock)
  }

  predicate ThirdIsMade(config: Config, signed: Signed, seen: Reads) {
    SecondIsMade(config, signed, seen) && seen.second.Miss? && ShowsClosed(config, signed, seen.secondClock)
  }

  /** Both rounds closed and missed. */
  predicate Expires(config: Config, signed: Signed, seen: Reads) {
    ThirdIsMade(config, signed, seen) && seen.third.Miss?
  }

  predicate StaysOpen(config: Config, signed: Signed, clock: Clock) {
    !ShowsClosed(config, signed, clock) && !CannotTell(signed, clock)
  }

  /** The pinned references are asked about: no lookup found anything, and no read so far failed. */
  predicate ReferencesAreAsked(config: Config, signed: Signed, seen: Reads) {
    && seen.first.Miss?
    && (|| !config.epochThenMiss
        || StaysOpen(config, signed, seen.firstClock)
        || (SecondIsMade(config, signed, seen) && seen.second.Miss? && StaysOpen(config, signed, seen.secondClock))
        || Expires(config, signed, seen))
  }

  ghost predicate AgainIsMade(config: Config, signed: Signed, seen: Reads) {
    ReferencesAreAsked(config, signed, seen) && DecidedAs(signed.digest, seen.asked, Ours)
  }

  /** Some lookup that was made found this. */
  ghost predicate WasFound(config: Config, chainId: ChainId, signed: Option<Signed>, seen: Reads, fx: Effects) {
    && (signed.Some? ==> !NamesAnotherChain(chainId, signed.value))
    && (|| seen.first == Found(fx)
        || (signed.Some? && SecondIsMade(config, signed.value, seen) && seen.second == Found(fx))
        || (signed.Some? && ThirdIsMade(config, signed.value, seen) && seen.third == Found(fx))
        || (signed.Some? && AgainIsMade(config, signed.value, seen) && seen.again == Found(fx)))
  }

  /** The expiration names another chain, or names none and another was recorded with the bytes. */
  predicate NamesAnotherChain(chainId: ChainId, signed: Signed) {
    || (ChainNamedBy(signed.expiration).Some? && ChainNamedBy(signed.expiration).value != chainId)
    || (ChainNamedBy(signed.expiration).None? && signed.chain.Some? && signed.chain.value != chainId)
  }

  /** The node reaches back to where the window starts, or cannot be asked. */
  predicate HistoryHolds(ledger: Ledger) {
    || ledger.NoLedger?
    || (ledger.Reaches? && ledger.lowest.Some? &&
        (ledger.lowest.value == 0 ||
         (ledger.start.FirstCheckpoint? && ledger.lowest.value <= ledger.start.checkpoint)))
  }

  predicate HistoryReadFails(ledger: Ledger) {
    || ledger.LedgerFailed?
    || (ledger.Reaches? && ledger.lowest.Some? && ledger.lowest.value > 0 && ledger.start.StartFailed?)
  }

  lemma HistoryIsWhatTheNodeSays(ledger: Ledger)
    ensures HistoryOf(ledger).Covered? || HistoryOf(ledger).Unreported? <==> HistoryHolds(ledger)
    ensures HistoryOf(ledger).HistoryFailed? <==> HistoryReadFails(ledger)
  {
  }

  lemma SomeDecisionOrNone(digest: Digest, asked: seq<Asked>)
    ensures var evidence := EvidenceOf(digest, asked);
            && (evidence.AppliedByUs? <==> DecidedAs(digest, asked, Ours))
            && (evidence.EvidenceFailed? <==> DecidedAs(digest, asked, ReadFailed))
            && (evidence.ConsumedByOther? <==> exists winner :: DecidedAs(digest, asked, Other(winner)))
  {
    EvidenceFindsConclusive(digest, asked);
    if EvidenceOf(digest, asked).ConsumedByOther? {
      assert DecidedAs(digest, asked, Other(EvidenceOf(digest, asked).winner));
    }
  }

  /** Exactly when each answer is given. A transaction that was found is what is answered; `expired` needs
      both rounds, no reference of ours and a history that holds; `inputConsumed` a consumer, with nothing
      found and nothing failed before it; anything else is unknown. */
  lemma AnswerIsWhatWasRead(config: Config, chainId: ChainId, digest: Digest, signed: Option<Signed>, seen: Reads)
    requires signed.Some? ==> signed.value.digest == digest
    ensures var answer := ReconcileAnswer(config, chainId, digest, signed, seen);
            && (forall fx :: answer == Executed(fx) <==>
                  fx.digest == digest && fx.success && WasFound(config, chainId, signed, seen, fx))
            && (forall fx :: answer == ExecutionFailed(fx) <==>
                  fx.digest == digest && !fx.success && WasFound(config, chainId, signed, seen, fx))
            && (answer == NotApplied(Expired) <==>
                  && signed.Some? && !NamesAnotherChain(chainId, signed.value)
                  && Expires(config, signed.value, seen) && HistoryHolds(seen.ledger)
                  && !DecidedAs(digest, seen.asked, Ours) && !DecidedAs(digest, seen.asked, ReadFailed))
            && (answer == NotApplied(InputConsumed) <==>
                  && signed.Some? && !NamesAnotherChain(chainId, signed.value)
                  && ReferencesAreAsked(config, signed.value, seen)
                  && (exists winner :: DecidedAs(digest, seen.asked, Other(winner)))
                  && (Expires(config, signed.value, seen) ==>
                        !HistoryHolds(seen.ledger) && !HistoryReadFails(seen.ledger)))
            && answer != NotApplied(Refused)
  {
    HistoryIsWhatTheNodeSays(seen.ledger);
    SomeDecisionOrNone(digest, seen.asked);
    if signed.Some? {
      ExpiryIsWhatTheClockShows(config, signed.value, seen.firstClock);
      ExpiryIsWhatTheClockShows(config, signed.value, seen.secondClock);
    }
  }

  // -------------------------------------------------------------------- when a read is truthful

  /** A read answered at position `at` of a run, out of the state at position `index` or earlier than
      `at`, by a node that has forgotten every checkpoint below `lowest`. */
  datatype When = When(at: nat, index: nat, lowest: nat)

  predicate Sensible(run: seq<State>, when: When) {
    when.index <= when.at < |run|
  }

  /** A hit is in the index; a miss is a transaction the index does not have, or has pruned. An
      answer about another digest may be anything at all. */
  ghost predicate TruthfulLookup(run: seq<State>, asked: Digest, lookup: Lookup, when: When) {
    && Sensible(run, when)
    && (lookup.Found? && lookup.effects.digest == asked ==> lookup.effects in run[when.index].log)
    && (lookup.Miss? ==>
          forall fx :: fx in run[when.index].log && fx.digest == asked ==> fx.checkpoint < when.lowest)
  }

  ghost predicate TruthfulState(run: seq<State>, objectId: ObjectId, state: InputState, when: When) {
    && Sensible(run, when)
    && (state.Present? ==>
          && objectId in run[when.index].live
          && run[when.index].live[objectId].version == state.version
          && (state.previous.Some? ==> run[when.index].live[objectId].previous == state.previous))
  }

  ghost predicate TruthfulAsked(run: seq<State>, asked: Asked) {
    && (exists when :: TruthfulState(run, asked.pin.objectId, asked.state, when))
    && (asked.state.Present? && asked.state.previous.Some? ==>
          exists when :: TruthfulLookup(run, asked.state.previous.value, asked.consumer, when))
  }

  predicate TruthfulClock(run: seq<State>, clock: Clock, at: nat) {
    && at < |run|
    && (clock.epoch.Some? ==> clock.epoch.value <= run[at].epoch)
    && (clock.time.Some? ==> clock.time.value <= run[at].time)
  }

  function WindowStart(signed: Signed): nat {
    match MinEpochOf(signed.expiration)
    case Some(epoch) => epoch
    case None => 0
  }

  /** The node says where the window's first epoch began, and it only ever prunes forward, so what it
      holds now it held at both misses. */
  predicate TruthfulLedger(run: seq<State>, signed: Signed, ledger: Ledger, at: nat, second: When, third: When) {
    && at < |run|
    && (ledger.Reaches? && ledger.lowest.Some? ==>
          second.lowest <= ledger.lowest.value && third.lowest <= ledger.lowest.value)
    && (ledger.Reaches? && ledger.start.FirstCheckpoint? ==>
          && WindowStart(signed) < |run[at].firstCheckpoint|
          && run[at].firstCheckpoint[WindowStart(signed)] == ledger.start.checkpoint)
  }

  datatype Timing = Timing(
    first: When, firstClock: nat, second: When, secondClock: nat, third: When, again: When, ledger: nat)

  ghost predicate TruthfulReads(run: seq<State>, digest: Digest, seen: Reads, t: Timing) {
    && TruthfulLookup(run, digest, seen.first, t.first)
    && TruthfulClock(run, seen.firstClock, t.firstClock)
    && TruthfulLookup(run, digest, seen.second, t.second)
    && TruthfulClock(run, seen.secondClock, t.secondClock)
    && TruthfulLookup(run, digest, seen.third, t.third)
    && TruthfulLookup(run, digest, seen.again, t.again)
    && (forall asked :: asked in seen.asked ==> TruthfulAsked(run, asked))
  }

  // ------------------------------------------------------------------- soundness of the evidence

  /** The bytes of this digest, and the references that were asked about are theirs. */
  ghost predicate BytesOf(run: seq<State>, signed: Signed, asked: seq<Asked>) {
    && run != []
    && signed.digest in run[0].txs && run[0].txs[signed.digest] == signed
    && forall a :: a in asked ==> a.pin in signed.pinned
  }

  lemma InLogStays(run: seq<State>, k: nat, fx: Effects)
    requires IsRun(run) && k < |run| && fx in run[k].log
    ensures fx in Last(run).log
  {
    RunExtends(run, k, |run| - 1);
    var i :| 0 <= i < |run[k].log| && run[k].log[i] == fx;
    assert Last(run).log[i] == fx;
  }

  /** An object that names these bytes as its last mutation proves they applied. */
  lemma OursIsApplied(run: seq<State>, digest: Digest, asked: Asked)
    requires IsRun(run) && TruthfulAsked(run, asked) && VerdictOf(digest, asked) == Ours
    ensures OnChain(Last(run), digest)
  {
    var when :| TruthfulState(run, asked.pin.objectId, asked.state, when);
    RunIsOk(run, when.index);
    OnChainStays(run, when.index, |run| - 1, digest);
  }

  /** Another transaction's effects that took a pinned version prove these bytes never apply: the run
      may go on past the read for as long as it likes. */
  lemma OtherIsNeverApplied(run: seq<State>, signed: Signed, asked: Asked)
    requires IsRun(run) && BytesOf(run, signed, [asked])
    requires TruthfulAsked(run, asked) && VerdictOf(signed.digest, asked).Other?
    ensures !OnChain(Last(run), signed.digest)
  {
    var fx := asked.consumer.effects;
    var when :| TruthfulLookup(run, asked.state.previous.value, asked.consumer, when);
    assert asked in [asked];
    ConsumedShutsOut(run, when.index, fx, signed, asked.pin);
  }

  lemma DecidedLater(digest: Digest, asked: seq<Asked>, verdict: Verdict)
    requires asked != []
    ensures DecidedAs(digest, asked, verdict) <==>
            if Deciding(VerdictOf(digest, asked[0])) then verdict == VerdictOf(digest, asked[0])
            else DecidedAs(digest, asked[1..], verdict)
  {
    var rest := asked[1..];
    if Deciding(VerdictOf(digest, asked[0])) {
      assert Decides(digest, asked, 0);
    } else {
      if k :| Decides(digest, asked, k) && VerdictOf(digest, asked[k]) == verdict {
        assert rest[k - 1] == asked[k];
        assert Decides(digest, rest, k - 1);
      }
      if k :| Decides(digest, rest, k) && VerdictOf(digest, rest[k]) == verdict {
        forall i | 0 <= i < k + 1 ensures !Deciding(VerdictOf(digest, asked[i])) {
          assert i > 0 ==> asked[i] == rest[i - 1];
        }
        assert Decides(digest, asked, k + 1);
      }
    }
  }

  /** What the evidence is, exactly: an inconclusive reference never decides it, before or after one that
      is conclusive; a failing read does when it comes before every conclusive reference. */
  lemma {:induction false} EvidenceFindsConclusive(digest: Digest, asked: seq<Asked>)
    ensures var evidence := EvidenceOf(digest, asked);
            && (evidence.AppliedByUs? <==> DecidedAs(digest, asked, Ours))
            && (evidence.EvidenceFailed? <==> DecidedAs(digest, asked, ReadFailed))
            && (forall winner :: (evidence.ConsumedByOther? && evidence.winner == winner) <==>
                                 DecidedAs(digest, asked, Other(winner)))
            && (evidence.NoEvidence? <==> forall k :: 0 <= k < |asked| ==> VerdictOf(digest, asked[k]) == Unmoved)
  {
    if asked != [] {
      EvidenceFindsConclusive(digest, asked[1..]);
      DecidedLater(digest, asked, Ours);
      DecidedLater(digest, asked, ReadFailed);
      forall winner ensures DecidedAs(digest, asked, Other(winner)) <==>
          if Deciding(VerdictOf(digest, asked[0])) then Other(winner) == VerdictOf(digest, asked[0])
          else DecidedAs(digest, asked[1..], Other(winner))
      {
        DecidedLater(digest, asked, Other(winner));
      }
      assert forall k :: 0 < k < |asked| ==> asked[k] == asked[1..][k - 1];
    }
  }

  /** The k-th reference is the first that is not just where it was pinned, and proves nothing. */
  predicate FirstUnreadable(digest: Digest, asked: seq<Asked>, k: int) {
    && 0 <= k < |asked| && VerdictOf(digest, asked[k]).Inconclusive?
    && forall i :: 0 <= i < k ==> VerdictOf(digest, asked[i]).Unmoved?
  }

  /** The evidence names the object that decided it, or, when nothing did, the first that could not be
      read. */
  lemma {:induction false} EvidenceNamesItsObject(digest: Digest, asked: seq<Asked>)
    ensures var evidence := EvidenceOf(digest, asked);
            && (evidence.AppliedByUs? || evidence.ConsumedByOther? ==>
                  exists k :: Decides(digest, asked, k) && asked[k].pin.objectId == evidence.objectId)
            && (evidence.Unreadable? ==>
                  exists k :: FirstUnreadable(digest, asked, k) && asked[k].pin.objectId == evidence.objectId)
  {
    if asked != [] {
      var rest := EvidenceOf(digest, asked[1..]);
      EvidenceNamesItsObject(digest, asked[1..]);
      if Deciding(VerdictOf(digest, asked[0])) {
        assert Decides(digest, asked, 0);
      } else if rest.AppliedByUs? || rest.ConsumedByOther? {
        var k :| Decides(digest, asked[1..], k) && asked[1..][k].pin.objectId == rest.objectId;
        assert forall i :: 0 < i <= k ==> asked[i] == asked[1..][i - 1];
        assert Decides(digest, asked, k + 1);
      } else if VerdictOf(digest, asked[0]).Inconclusive? {
        assert FirstUnreadable(digest, asked, 0);
      } else if rest.Unreadable? {
        var k :| FirstUnreadable(digest, asked[1..], k) && asked[1..][k].pin.objectId == rest.objectId;
        assert forall i :: 0 < i <= k ==> asked[i] == asked[1..][i - 1];
        assert FirstUnreadable(digest, asked, k + 1);
      }
    }
  }

  lemma {:induction false} SomethingDecides(digest: Digest, asked: seq<Asked>, k: nat) returns (first: nat)
    requires k < |asked| && Deciding(VerdictOf(digest, asked[k]))
    ensures first <= k && Decides(digest, asked, first)
  {
    if l: nat :| l < k && Deciding(VerdictOf(digest, asked[l])) {
      first := SomethingDecides(digest, asked, l);
    } else {
      first := k;
    }
  }

  ghost predicate SameClass(a: InputEvidence, b: InputEvidence) {
    && a.NoEvidence? == b.NoEvidence? && a.ConsumedByOther? == b.ConsumedByOther?
    && a.AppliedByUs? == b.AppliedByUs? && a.Unreadable? == b.Unreadable?
  }

  /** Two pinned references never give conflicting verdicts. */
  lemma VerdictsAgree(run: seq<State>, signed: Signed, a: Asked, b: Asked)
    requires IsRun(run) && BytesOf(run, signed, [a, b])
    requires TruthfulAsked(run, a) && TruthfulAsked(run, b)
    ensures !(VerdictOf(signed.digest, a) == Ours && VerdictOf(signed.digest, b).Other?)
  {
    if VerdictOf(signed.digest, a) == Ours {
      OursIsApplied(run, signed.digest, a);
      if VerdictOf(signed.digest, b).Other? {
        assert b in [a, b];
        OtherIsNeverApplied(run, signed, b);
      }
    }
  }

  /** A failing read hides a consumer that comes after it, and only then: the loop stops at either. */
  lemma FailedReadHidesAConsumer(digest: Digest, winner: Digest)
    requires winner != digest
    ensures exists failed: Asked, other: Asked ::
              && EvidenceOf(digest, [failed, other]) == EvidenceFailed
              && EvidenceOf(digest, [other, failed]).ConsumedByOther?
  {
    var failed := Asked(PinnedRef(1, 1), StateFailed, Miss);
    var fx := Effects(winner, true, map[0 := 1], map[0 := Change(Some(1), true, false)], 2, 0, 0, 0);
    var other := Asked(PinnedRef(0, 1), Present(2, Some(winner)), Found(fx));
    assert EvidenceOf(digest, [failed, other]) == EvidenceFailed;
    assert EvidenceOf(digest, [other, failed]).ConsumedByOther?;
  }

  predicate SomeFailed(digest: Digest, asked: seq<Asked>) {
    exists a :: a in asked && VerdictOf(digest, a) == ReadFailed
  }

  predicate SomeConclusive(digest: Digest, asked: seq<Asked>) {
    exists a :: a in asked && Conclusive(VerdictOf(digest, a))
  }

  /** The class of the evidence when no read failed, or no reference is conclusive. */
  lemma EvidenceByMembers(run: seq<State>, signed: Signed, asked: seq<Asked>)
    requires IsRun(run) && BytesOf(run, signed, asked) && forall a :: a in asked ==> TruthfulAsked(run, a)
    requires !SomeFailed(signed.digest, asked) || !SomeConclusive(signed.digest, asked)
    ensures var evidence := EvidenceOf(signed.digest, asked);
            && (evidence.EvidenceFailed? <==> SomeFailed(signed.digest, asked))
            && (evidence.AppliedByUs? <==> exists a :: a in asked && VerdictOf(signed.digest, a).Ours?)
            && (evidence.ConsumedByOther? <==> exists a :: a in asked && VerdictOf(signed.digest, a).Other?)
            && (evidence.NoEvidence? <==> forall a :: a in asked ==> VerdictOf(signed.digest, a) == Unmoved)
  {
    var digest := signed.digest;
    EvidenceFindsConclusive(digest, asked);
    assert forall k :: 0 <= k < |asked| ==> asked[k] in asked;
    forall a | a in asked && Deciding(VerdictOf(digest, a))
      ensures VerdictOf(digest, a).ReadFailed? ==> EvidenceOf(digest, asked).EvidenceFailed?
      ensures VerdictOf(digest, a).Ours? ==> EvidenceOf(digest, asked).AppliedByUs?
      ensures VerdictOf(digest, a).Other? ==> EvidenceOf(digest, asked).ConsumedByOther?
    {
      DecidingMemberDecides(run, signed, asked, a);
    }
    if EvidenceOf(digest, asked).ConsumedByOther? {
      assert DecidedAs(digest, asked, Other(EvidenceOf(digest, asked).winner));
    }
  }

  lemma DecidingMemberDecides(run: seq<State>, signed: Signed, asked: seq<Asked>, a: Asked)
    requires IsRun(run) && BytesOf(run, signed, asked) && forall a :: a in asked ==> TruthfulAsked(run, a)
    requires !SomeFailed(signed.digest, asked) || !SomeConclusive(signed.digest, asked)
    requires a in asked && Deciding(VerdictOf(signed.digest, a))
    ensures VerdictOf(signed.digest, a).ReadFailed? ==> EvidenceOf(signed.digest, asked).EvidenceFailed?
    ensures VerdictOf(signed.digest, a).Ours? ==> EvidenceOf(signed.digest, asked).AppliedByUs?
    ensures VerdictOf(signed.digest, a).Other? ==> EvidenceOf(signed.digest, asked).ConsumedByOther?
  {
    var digest := signed.digest;
    var k: nat :| k < |asked| && asked[k] == a;
    var first := SomethingDecides(digest, asked, k);
    var decider := asked[first];
    assert decider in asked;
    EvidenceFindsConclusive(digest, asked);
    assert DecidedAs(digest, asked, VerdictOf(digest, decider));
    VerdictsAgree(run, signed, a, decider);
    VerdictsAgree(run, signed, decider, a);
  }

  ghost predicate OrderFree(digest: Digest, asked: seq<Asked>) {
    forall reordered :: multiset(reordered) == multiset(asked) ==>
      SameClass(EvidenceOf(digest, asked), EvidenceOf(digest, reordered))
  }

  lemma SameMembers(asked: seq<Asked>, reordered: seq<Asked>)
    requires multiset(reordered) == multiset(asked)
    ensures forall a :: a in asked <==> a in reordered
  {
    forall a ensures a in asked <==> a in reordered {
      assert a in asked <==> a in multiset(asked);
      assert a in reordered <==> a in multiset(reordered);
    }
  }

  /** The same references with the k-th asked about first. */
  lemma FirstOf(digest: Digest, asked: seq<Asked>, k: nat) returns (reordered: seq<Asked>)
    requires k < |asked| && Deciding(VerdictOf(digest, asked[k]))
    ensures multiset(reordered) == multiset(asked)
    ensures EvidenceOf(digest, reordered).EvidenceFailed? <==> VerdictOf(digest, asked[k]) == ReadFailed
  {
    reordered := [asked[k]] + (asked[..k] + asked[k + 1..]);
    assert asked == asked[..k] + [asked[k]] + asked[k + 1..];
  }

  /** The class of the evidence does not depend on the order of the references, exactly when no read of
      theirs failed or none of them is conclusive. */
  lemma OrderIsIrrelevant(run: seq<State>, signed: Signed, asked: seq<Asked>)
    requires IsRun(run) && BytesOf(run, signed, asked) && forall a :: a in asked ==> TruthfulAsked(run, a)
    ensures OrderFree(signed.digest, asked) <==>
            !SomeFailed(signed.digest, asked) || !SomeConclusive(signed.digest, asked)
  {
    var digest := signed.digest;
    if SomeFailed(digest, asked) && SomeConclusive(digest, asked) {
      var a, b :| a in asked && VerdictOf(digest, a) == ReadFailed && b in asked && Conclusive(VerdictOf(digest, b));
      var k: nat, l: nat :| k < |asked| && asked[k] == a && l < |asked| && asked[l] == b;
      var failing := FirstOf(digest, asked, k);
      var concluding := FirstOf(digest, asked, l);
      assert !SameClass(EvidenceOf(digest, failing), EvidenceOf(digest, concluding));
    } else {
      EvidenceByMembers(run, signed, asked);
      forall reordered | multiset(reordered) == multiset(asked)
        ensures SameClass(EvidenceOf(digest, asked), EvidenceOf(digest, reordered))
      {
        SameMembers(asked, reordered);
        EvidenceByMembers(run, signed, reordered);
      }
    }
  }

  /** A closed-then-miss round answered out of an index that reaches what the clock reported. */
  predicate FreshRound(run: seq<State>, config: Config, signed: Signed, clock: Clock, when: When) {
    && Sensible(run, when)
    && (|| (ClosedByEpoch(signed, clock) && clock.epoch.value <= run[when.index].epoch)
        || (ClosedByTime(config, signed, clock) && clock.time.value <= run[when.index].time))
  }

  /** The node holds every checkpoint the transaction could have landed in. */
  predicate HoldsWindow(run: seq<State>, signed: Signed, when: When) {
    when.index < |run| && WindowStart(signed) < |run[when.index].firstCheckpoint| ==>
      when.lowest <= run[when.index].firstCheckpoint[WindowStart(signed)]
  }

  lemma CoveredHoldsWindow(run: seq<State>, signed: Signed, ledger: Ledger, at: nat, second: When, third: When)
    requires IsRun(run) && TruthfulLedger(run, signed, ledger, at, second, third)
    requires HistoryOf(ledger) == Covered
    ensures HoldsWindow(run, signed, second) && HoldsWindow(run, signed, third)
  {
    var last := |run| - 1;
    RunExtends(run, at, last);
    RunIsOk(run, last);
    if second.index < |run| {
      RunExtends(run, second.index, last);
    }
    if third.index < |run| {
      RunExtends(run, third.index, last);
    }
  }

  /** A miss in one fresh round, on a node that holds the window, is evidence for good. */
  lemma FreshMissIsNeverApplied(
      run: seq<State>, config: Config, signed: Signed, clock: Clock, lookup: Lookup, when: When)
    requires IsRun(run) && BytesOf(run, signed, []) && run[0].skew <= config.expiryMargin
    requires TruthfulLookup(run, signed.digest, lookup, when) && lookup.Miss?
    requires FreshRound(run, config, signed, clock, when) && HoldsWindow(run, signed, when)
    ensures !OnChain(Last(run), signed.digest)
  {
    var k := when.index;
    RunIsOk(run, k);
    RunExtends(run, 0, k);
    forall i | 0 <= i < |run[k].log| ensures run[k].log[i].digest != signed.digest {
      var fx := run[k].log[i];
      assert fx in run[k].log;
      assert fx.digest == signed.digest ==> WindowStart(signed) <= fx.epoch;
    }
    ClosedWindowShutsOut(run, k, signed);
  }

  /** What an answer claims, judged at the end of a run. */
  ghost predicate Honest(c: State, digest: Digest, answer: Answer) {
    match answer
    case Executed(fx) => fx in c.log && fx.digest == digest && fx.success
    case ExecutionFailed(fx) => fx in c.log && fx.digest == digest && !fx.success
    case NotApplied(_) => !OnChain(c, digest)
    case Unknown => true
  }

  /** The assumption an expired verdict rests on: at least one round was answered from an index that
      reaches what the clock had just reported, and the node holds the window (which it says itself
      where the transport reports history). */
  ghost predicate ExpiryAssumption(run: seq<State>, config: Config, signed: Signed, seen: Reads, t: Timing) {
    && run != [] && run[0].skew <= config.expiryMargin
    && TruthfulLedger(run, signed, seen.ledger, t.ledger, t.second, t.third)
    && (HistoryOf(seen.ledger) == Unreported ==>
          HoldsWindow(run, signed, t.second) && HoldsWindow(run, signed, t.third))
    && (|| FreshRound(run, config, signed, seen.firstClock, t.second)
        || FreshRound(run, config, signed, seen.secondClock, t.third))
  }

  lemma LookIsHonest(run: seq<State>, digest: Digest, lookup: Lookup, when: When)
    requires IsRun(run) && TruthfulLookup(run, digest, lookup, when)
    ensures Look(digest, lookup).Answered? ==> Honest(Last(run), digest, Look(digest, lookup).answer)
    ensures Look(digest, lookup).Continue? <==> lookup.Miss?
  {
    if lookup.Found? && lookup.effects.digest == digest {
      InLogStays(run, when.index, lookup.effects);
    }
  }

  /** `expired` is only ever concluded from two closed windows around two misses. */
  lemma ExpiredMeansTwoRounds(config: Config, signed: Signed, seen: Reads)
    requires ExpiryRounds(config, signed, seen) == Continue(true)
    ensures seen.second.Miss? && seen.third.Miss?
    ensures ClosedByEpoch(signed, seen.firstClock) || ClosedByTime(config, signed, seen.firstClock)
    ensures ClosedByEpoch(signed, seen.secondClock) || ClosedByTime(config, signed, seen.secondClock)
  {
  }

  lemma ConcludeIsHonest(run: seq<State>, config: Config, signed: Signed, expired: bool, seen: Reads, t: Timing)
    requires IsRun(run) && BytesOf(run, signed, seen.asked) && TruthfulReads(run, signed.digest, seen, t)
    requires expired ==> ExpiryRounds(config, signed, seen) == Continue(true)
    requires expired ==> ExpiryAssumption(run, config, signed, seen, t)
    ensures Conclude(signed, expired, seen).Answered? ==>
            Honest(Last(run), signed.digest, Conclude(signed, expired, seen).answer)
  {
    LookIsHonest(run, signed.digest, seen.again, t.again);
    var evidence := EvidenceOf(signed.digest, seen.asked);
    if evidence.ConsumedByOther? {
      ConsumedEvidenceIsSound(run, signed, seen.asked);
    } else if !evidence.AppliedByUs? && !evidence.EvidenceFailed? && expired {
      var history := HistoryOf(seen.ledger);
      if history == Covered || history == Unreported {
        if history == Covered {
          CoveredHoldsWindow(run, signed, seen.ledger, t.ledger, t.second, t.third);
        }
        ExpiredMeansTwoRounds(config, signed, seen);
        if FreshRound(run, config, signed, seen.firstClock, t.second) {
          FreshMissIsNeverApplied(run, config, signed, seen.firstClock, seen.second, t.second);
        } else {
          FreshMissIsNeverApplied(run, config, signed, seen.secondClock, seen.third, t.third);
        }
      }
    }
  }

  lemma {:induction false} ConsumedEvidenceIsSound(run: seq<State>, signed: Signed, asked: seq<Asked>)
    requires IsRun(run) && BytesOf(run, signed, asked)
    requires forall a :: a in asked ==> TruthfulAsked(run, a)
    requires EvidenceOf(signed.digest, asked).ConsumedByOther?
    ensures !OnChain(Last(run), signed.digest)
  {
    assert asked[0] in asked;
    if VerdictOf(signed.digest, asked[0]).Other? {
      OtherIsNeverApplied(run, signed, asked[0]);
    } else {
      ConsumedEvidenceIsSound(run, signed, asked[1..]);
    }
  }

  /** Every answer of `reconcile` is true at the end of every run its reads were truthful in, however
      long the run goes on after them: `Executed` and `ExecutionFailed` are on chain, and a
      `NotApplied` transaction never is. Only `expired` rests on an assumption. */
  lemma ReconcileIsHonest(
      run: seq<State>, config: Config, chainId: ChainId, digest: Digest, signed: Option<Signed>, seen: Reads, t: Timing)
    requires IsRun(run) && TruthfulReads(run, digest, seen, t)
    requires signed.Some? ==> signed.value.digest == digest && BytesOf(run, signed.value, seen.asked)
    requires ReconcileAnswer(config, chainId, digest, signed, seen) == NotApplied(Expired) ==>
               ExpiryAssumption(run, config, signed.value, seen, t)
    ensures Honest(Last(run), digest, ReconcileAnswer(config, chainId, digest, signed, seen))
    ensures ReconcileAnswer(config, chainId, digest, signed, seen) != NotApplied(Refused)
  {
    LookIsHonest(run, digest, seen.first, t.first);
    LookIsHonest(run, digest, seen.second, t.second);
    LookIsHonest(run, digest, seen.third, t.third);
    if signed.Some? {
      var rounds := ExpiryRounds(config, signed.value, seen);
      if rounds.Continue? && Conclude(signed.value, rounds.expired, seen).Answered? {
        if rounds.expired && Conclude(signed.value, true, seen).answer != NotApplied(Expired) {
          ConcludeWithoutExpiry(run, config, signed.value, seen, t);
        } else if Recover(config, chainId, digest, signed, seen) == Conclude(signed.value, rounds.expired, seen) {
          ConcludeIsHonest(run, config, signed.value, rounds.expired, seen, t);
        }
      }
    }
  }

  lemma ConcludeWithoutExpiry(run: seq<State>, config: Config, signed: Signed, seen: Reads, t: Timing)
    requires IsRun(run) && BytesOf(run, signed, seen.asked) && TruthfulReads(run, signed.digest, seen, t)
    requires Conclude(signed, true, seen).Answered? && Conclude(signed, true, seen).answer != NotApplied(Expired)
    ensures Honest(Last(run), signed.digest, Conclude(signed, true, seen).answer)
  {
    assert Conclude(signed, true, seen) == Conclude(signed, false, seen);
    ConcludeIsHonest(run, config, signed, false, seen, t);
  }

  // ------------------------------------------------------------- why the order and the index matter

  /** A run in which a transaction valid in epoch 0 only, pinning nothing, executes after a lookup
      missed it and before its epoch ends. */
  function LateLanding(digest: Digest): seq<State> {
    var signed := Signed(digest, [], EpochBound(0), None);
    var fx := Effects(digest, true, map[], map[], 1, 0, 0, 0);
    var c0 := State(map[digest := signed], 0, [], map[], map[], 0, 0, 0, [0]);
    var c1 := c0.(log := [fx]);
    [c0, c1, c1.(epoch := 1, checkpoint := 1, firstCheckpoint := [0, 1])]
  }

  lemma LateLandingIsARun(digest: Digest)
    ensures var run := LateLanding(digest);
            IsRun(run) && !OnChain(run[0], digest) && OnChain(run[1], digest) && OnChain(run[2], digest)
    ensures BytesOf(LateLanding(digest), Signed(digest, [], EpochBound(0), None), [])
  {
    var run := LateLanding(digest);
    var fx := Effects(digest, true, map[], map[], 1, 0, 0, 0);
    assert run[1].log[0] == fx && run[2].log[0] == fx;
    assert CanExecute(run[0], fx);
    assert Execute(run[0], fx) == run[1];
    assert Next(run[0], run[1]);
    assert EpochChanged(run[1], run[2]);
    assert Next(run[1], run[2]);
  }

  /** A miss first and a closed window second prove nothing, even when the miss was answered from the
      newest state there was: the transaction landed between the two. */
  lemma MissThenClosedIsNotEvidence(digest: Digest)
    ensures exists run: seq<State>, miss: When, clock: Clock, at: nat ::
              var signed := Signed(digest, [], EpochBound(0), None);
              && IsRun(run) && BytesOf(run, signed, [])
              && TruthfulLookup(run, digest, Miss, miss) && miss.index == miss.at && miss.lowest == 0
              && TruthfulClock(run, clock, at) && miss.at < at && ClosedByEpoch(signed, clock)
              && OnChain(Last(run), digest)
  {
    var run := LateLanding(digest);
    LateLandingIsARun(digest);
    assert TruthfulLookup(run, digest, Miss, When(0, 0, 0));
    assert TruthfulClock(run, Clock(Some(1), None), 2);
  }

  /** The residual risk the rule documents: with both misses answered from an index that lags the
      epoch the node reports, every read is truthful and `expired` is wrong. */
  lemma LaggingIndexIsNotEvidence(config: Config, digest: Digest)
    requires config.epochThenMiss
    ensures exists run: seq<State>, seen: Reads, t: Timing ::
              var signed := Signed(digest, [], EpochBound(0), None);
              && IsRun(run) && BytesOf(run, signed, seen.asked) && TruthfulReads(run, digest, seen, t)
              && TruthfulLedger(run, signed, seen.ledger, t.ledger, t.second, t.third)
              && ReconcileAnswer(config, 0, digest, Some(signed), seen) == NotApplied(Expired)
              && OnChain(Last(run), digest)
  {
    var run := LateLanding(digest);
    LateLandingIsARun(digest);
    var stale := When(2, 0, 0);
    var clock := Clock(Some(1), None);
    var seen := Reads(Miss, clock, Miss, clock, Miss, [], Miss, Reaches(Some(0), NotSaid));
    var t := Timing(stale, 2, stale, 2, stale, stale, 2);
    assert TruthfulReads(run, digest, seen, t);
    var signed := Signed(digest, [], EpochBound(0), None);
    assert ReconcileAnswer(config, 0, digest, Some(signed), seen) == NotApplied(Expired);
  }
}
