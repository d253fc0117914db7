/** The default expiration of a `Tx.run`: the window its bytes are valid in, clamped so that it
    outlives no signature on them. */
module SessionWindow {
  import opened Domain
  import opened Signers

  const U32_MAX := 4_294_967_295

  datatype Policy = NoDefault | CurrentEpoch | CurrentAndNext(validFor: Option<nat>)

  datatype BuildFailure = SessionPassed(bound: nat) | NotANonce

  datatype Result<+T> = Ok(value: T) | Failed(failure: BuildFailure)

  /** The earlier of the signer's bound and the sponsor's; a sponsor counts only for a payer that is not
      the sender. */
  function SessionBound(signer: Signer, payer: Option<Address>, sponsor: Option<Signer>): Option<nat> {
    Earliest([MaxEpoch(signer), if payer.Some? && sponsor.Some? then MaxEpoch(sponsor.value) else None])
  }

  /** `defaultExpiration`, with what it reads: the epoch, the chain's time, the nonce it is given. */
  function DefaultExpiration(policy: Policy, bound: Option<nat>, epoch: nat, chainTime: nat, nonce: nat, chain: ChainId)
    : Result<Expiration>
  {
    match policy
    case NoDefault => Ok(NoExpiration)
    case CurrentEpoch =>
      if bound.Some? && bound.value < epoch then Failed(SessionPassed(bound.value)) else Ok(EpochBound(epoch))
    case CurrentAndNext(validFor) =>
      if bound.Some? && bound.value < epoch then Failed(SessionPassed(bound.value))
      else
        var last := if bound.Some? && bound.value < epoch + 1 then bound.value else epoch + 1;
        if nonce > U32_MAX then Failed(NotANonce)
        else
          var until := if validFor.Some? then Some(chainTime + validFor.value) else None;
          Ok(ValidDuring(Some(epoch), Some(last), until, chain))
  }

  /** Some signature on the bytes rests on this proof. */
  ghost predicate OnTheBytes(signer: Signer, payer: Option<Address>, sponsor: Option<Signer>, proofEpoch: nat) {
    HasProof(signer, proofEpoch) || (payer.Some? && sponsor.Some? && HasProof(sponsor.value, proofEpoch))
  }

  lemma BoundIsTheEarliestProof(signer: Signer, payer: Option<Address>, sponsor: Option<Signer>)
    ensures var bound := SessionBound(signer, payer, sponsor);
            && (bound.Some? ==> OnTheBytes(signer, payer, sponsor, bound.value))
            && forall proofEpoch :: OnTheBytes(signer, payer, sponsor, proofEpoch) ==>
                 bound.Some? && bound.value <= proofEpoch
  {
    MaxEpochIsTheEarliestProof(signer);
    if sponsor.Some? {
      MaxEpochIsTheEarliestProof(sponsor.value);
    }
    var bounds := [MaxEpoch(signer), if payer.Some? && sponsor.Some? then MaxEpoch(sponsor.value) else None];
    EarliestIsLeast(bounds);
    assert bounds[0] == MaxEpoch(signer);
    assert payer.Some? && sponsor.Some? ==> bounds[1] == MaxEpoch(sponsor.value);
  }

  /** For every tree of signers and sponsors: a window is built exactly when no proof has passed (and the
      nonce is one); it starts now, is one epoch or two, is cut short only by a proof, ends no later than
      every proof, so that each is good in every epoch of it, and no signer refuses the bytes. */
  lemma WindowFitsEverySigner(signer: Signer, payer: Option<Address>, sponsor: Option<Signer>,
                              validFor: Option<nat>, epoch: nat, chainTime: nat, nonce: nat, chain: ChainId)
    ensures var built := DefaultExpiration(CurrentAndNext(validFor), SessionBound(signer, payer, sponsor),
                                           epoch, chainTime, nonce, chain);
            && (built.Ok? <==>
                  nonce <= U32_MAX &&
                  forall proofEpoch :: OnTheBytes(signer, payer, sponsor, proofEpoch) ==> epoch <= proofEpoch)
            && (built.Ok? ==>
                  && MinEpochOf(built.value) == Some(epoch) && MaxEpochOf(built.value).Some?
                  && var last := MaxEpochOf(built.value).value;
                  && epoch <= last <= epoch + 1
                  && (last == epoch + 1 || OnTheBytes(signer, payer, sponsor, last))
                  && (forall proofEpoch :: OnTheBytes(signer, payer, sponsor, proofEpoch) ==> last <= proofEpoch)
                  && SignsBytes(signer, built.value)
                  && (payer.Some? && sponsor.Some? ==> SignsBytes(sponsor.value, built.value)))
  {
    BoundIsTheEarliestProof(signer, payer, sponsor);
    var bound := SessionBound(signer, payer, sponsor);
    var built := DefaultExpiration(CurrentAndNext(validFor), bound, epoch, chainTime, nonce, chain);
    if built.Ok? {
      forall proofEpoch | HasProof(signer, proofEpoch) ensures ProofCovers(proofEpoch, built.value) {
        assert OnTheBytes(signer, payer, sponsor, proofEpoch);
      }
      SignsIffEveryProofCovers(signer, built.value);
      if payer.Some? && sponsor.Some? {
        forall proofEpoch | HasProof(sponsor.value, proofEpoch) ensures ProofCovers(proofEpoch, built.value) {
          assert OnTheBytes(signer, payer, sponsor, proofEpoch);
        }
        SignsIffEveryProofCovers(sponsor.value, built.value);
      }
    }
  }

  /** What the window is besides its epochs: of this chain, and until a time counted from the chain's own
      clock when one is asked for. */
  lemma WindowIsOfThisChain(bound: Option<nat>, validFor: Option<nat>, epoch: nat, chainTime: nat, nonce: nat,
                            chain: ChainId)
    ensures var built := DefaultExpiration(CurrentAndNext(validFor), bound, epoch, chainTime, nonce, chain);
            built.Ok? ==>
              && ChainNamedBy(built.value) == Some(chain)
              && MaxTimestampOf(built.value).Some? == validFor.Some?
              && (validFor.Some? ==> MaxTimestampOf(built.value).value - chainTime == validFor.value)
  {
  }

  /** The other two defaults: the current epoch only, unless a proof has passed, and then no signer refuses
      it; or no expiration at all, whatever the proofs. */
  lemma OtherDefaults(signer: Signer, payer: Option<Address>, sponsor: Option<Signer>, epoch: nat, chainTime: nat,
                      nonce: nat, chain: ChainId)
    ensures var built := DefaultExpiration(CurrentEpoch, SessionBound(signer, payer, sponsor),
                                           epoch, chainTime, nonce, chain);
            && (built.Ok? <==>
                  forall proofEpoch :: OnTheBytes(signer, payer, sponsor, proofEpoch) ==> epoch <= proofEpoch)
            && (built.Ok? ==> MaxEpochOf(built.value) == Some(epoch) && SignsBytes(signer, built.value))
            && (built.Failed? ==>
                  built.failure.SessionPassed? && OnTheBytes(signer, payer, sponsor, built.failure.bound))
    ensures DefaultExpiration(NoDefault, SessionBound(signer, payer, sponsor), epoch, chainTime, nonce, chain) ==
            Ok(NoExpiration)
  {
    BoundIsTheEarliestProof(signer, payer, sponsor);
    SignsIffEveryProofCovers(signer, EpochBound(epoch));
  }

  /** Built without the bound, the bytes would outlive the proof in its last epoch: the signer signs them,
      and they are still valid in an epoch the node refuses the signature in. */
  lemma UnclampedWindowOutlivesTheProof(address: Address, epoch: nat, chainTime: nat, nonce: nat, chain: ChainId)
    requires nonce <= U32_MAX
    ensures var signer := ZkLogin(address, epoch);
            var built := DefaultExpiration(CurrentAndNext(None), None, epoch, chainTime, nonce, chain);
            && built.Ok? && SignsBytes(signer, built.value)
            && HasProof(signer, epoch) && MaxEpochOf(built.value) == Some(epoch + 1)
  {
  }

  /** An alias changes the address signed as, and nothing the window depends on. */
  lemma AliasKeepsTheSession(account: Address, signer: Signer, proofEpoch: nat)
    ensures Alias(account, signer).address == account
    ensures if signer.address == account && !signer.AliasSigner? then Alias(account, signer) == signer
            else Alias(account, signer).AliasSigner?
    ensures MaxEpoch(Alias(account, signer)) == MaxEpoch(signer)
    ensures HasProof(Alias(account, signer), proofEpoch) <==> HasProof(signer, proofEpoch)
    ensures forall expiration :: SignsBytes(Alias(account, signer), expiration) <==> SignsBytes(signer, expiration)
  {
  }
}
