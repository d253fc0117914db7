/** The values every part of the submission lifecycle shares: digests, pinned references,
    expirations, signed bytes and journal entries.

    Digests, object ids and addresses are injective names with a total order, so each is a `nat`;
    an address is its normalized spelling. */
module Domain {

  type Digest = nat
  type ObjectId = nat
  type Version = nat
  type Address = nat
  type ChainId = nat

  datatype Option<+T> = None | Some(value: T)

  datatype PinnedRef = PinnedRef(objectId: ObjectId, version: Version)

  /** The four expiration variants. `Validity` bounds a transaction exactly as `ValidDuring` does. */
  datatype Expiration =
    | NoExpiration
    | EpochBound(epoch: nat)
    | ValidDuring(minEpoch: Option<nat>, maxEpoch: Option<nat>, maxTimestamp: Option<nat>, chain: ChainId)
    | Validity(minEpoch: Option<nat>, maxEpoch: Option<nat>, maxTimestamp: Option<nat>, chain: ChainId)

  function MaxEpochOf(expiration: Expiration): Option<nat> {
    match expiration
    case NoExpiration => None
    case EpochBound(epoch) => Some(epoch)
    case ValidDuring(_, maxEpoch, _, _) => maxEpoch
    case Validity(_, maxEpoch, _, _) => maxEpoch
  }

  function MinEpochOf(expiration: Expiration): Option<nat> {
    match expiration
    case NoExpiration => None
    case EpochBound(_) => None
    case ValidDuring(minEpoch, _, _, _) => minEpoch
    case Validity(minEpoch, _, _, _) => minEpoch
  }

  function MaxTimestampOf(expiration: Expiration): Option<nat> {
    match expiration
    case NoExpiration => None
    case EpochBound(_) => None
    case ValidDuring(_, _, maxTimestamp, _) => maxTimestamp
    case Validity(_, _, maxTimestamp, _) => maxTimestamp
  }

  function ChainNamedBy(expiration: Expiration): Option<ChainId> {
    match expiration
    case NoExpiration => None
    case EpochBound(_) => None
    case ValidDuring(_, _, _, chain) => Some(chain)
    case Validity(_, _, _, chain) => Some(chain)
  }

  /** What reconciling needs of signed bytes. `chain` is the chain the build recorded beside them. */
  datatype Signed = Signed(
    digest: Digest,
    pinned: seq<PinnedRef>,
    expiration: Expiration,
    chain: Option<ChainId>)

  /** The chain the bytes belong to: the one the expiration names, else the recorded one. */
  function ChainOfSigned(signed: Signed): Option<ChainId> {
    match ChainNamedBy(signed.expiration)
    case Some(chain) => Some(chain)
    case None => signed.chain
  }

  datatype Evidence = Expired | InputConsumed | Refused

  /** One line of the submission journal. `at` is the millisecond the entry last changed state. */
  datatype JournalEntry =
    | SignedEntry(digest: Digest, signed: Signed, at: int)
    | ExecutedEntry(digest: Digest, at: int)
    | FailedEntry(digest: Digest, at: int)
    | UnknownEntry(digest: Digest, signed: Signed, attempts: nat, at: int)
    | NotAppliedEntry(digest: Digest, evidence: Evidence, at: int)

  predicate IsUnresolved(entry: JournalEntry) {
    entry.SignedEntry? || entry.UnknownEntry?
  }
}
