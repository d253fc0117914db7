/** Signers and signers built from signers: a key, a zkLogin proof, a multisig over members, an alias. */
module Signers {
  import opened Domain

  /** `members` of a multisig are its member signers in member order; `address` of an alias is the
      account it signs as. */
  datatype Signer =
    | KeySigner(address: Address)
    | ZkLogin(address: Address, proofEpoch: nat)
    | MultiSigSigner(address: Address, members: seq<Signer>)
    | AliasSigner(address: Address, signer: Signer)

  /** `earliest`: the least of the bounds that exist, folded from the left. */
  function Earliest(bounds: seq<Option<nat>>): Option<nat> {
    if bounds == [] then None
    else
      var least, bound := Earliest(bounds[..|bounds| - 1]), bounds[|bounds| - 1];
      if bound == None then least
      else if least == None || bound.value < least.value then bound
      else least
  }

  lemma {:induction false} EarliestIsLeast(bounds: seq<Option<nat>>)
    ensures Earliest(bounds) == None <==> forall k :: 0 <= k < |bounds| ==> bounds[k] == None
    ensures Earliest(bounds).Some? ==>
              && Earliest(bounds) in bounds
              && forall k :: 0 <= k < |bounds| && bounds[k].Some? ==> Earliest(bounds).value <= bounds[k].value
  {
    if bounds != [] {
      EarliestIsLeast(bounds[..|bounds| - 1]);
    }
  }

  /** The `maxEpoch` a signer carries. */
  function MaxEpoch(signer: Signer): Option<nat> {
    match signer
    case KeySigner(_) => None
    case ZkLogin(_, proofEpoch) => Some(proofEpoch)
    case MultiSigSigner(_, members) => Earliest(seq(|members|, k requires 0 <= k < |members| => MaxEpoch(members[k])))
    case AliasSigner(_, inner) => MaxEpoch(inner)
  }

  /** `alias`: the account's own signer is left as it is, unless it is an alias itself. */
  function Alias(account: Address, signer: Signer): Signer {
    if signer.address == account && !signer.AliasSigner? then signer else AliasSigner(account, signer)
  }

  /** The epoch of some zkLogin proof under this signer. */
  ghost predicate HasProof(signer: Signer, proofEpoch: nat) {
    match signer
    case KeySigner(_) => false
    case ZkLogin(_, epoch) => epoch == proofEpoch
    case MultiSigSigner(_, members) => exists k :: 0 <= k < |members| && HasProof(members[k], proofEpoch)
    case AliasSigner(_, inner) => HasProof(inner, proofEpoch)
  }

  /** A signer's `maxEpoch` is the earliest proof anywhere under it, and there is none exactly when no
      proof is. */
  lemma {:induction false} MaxEpochIsTheEarliestProof(signer: Signer)
    ensures MaxEpoch(signer).Some? ==> HasProof(signer, MaxEpoch(signer).value)
    ensures forall proofEpoch :: HasProof(signer, proofEpoch) ==>
              MaxEpoch(signer).Some? && MaxEpoch(signer).value <= proofEpoch
  {
    match signer
    case KeySigner(_) =>
    case ZkLogin(_, _) =>
    case AliasSigner(_, inner) =>
      MaxEpochIsTheEarliestProof(inner);
    case MultiSigSigner(_, members) =>
      forall k | 0 <= k < |members|
        ensures MaxEpoch(members[k]).Some? ==> HasProof(members[k], MaxEpoch(members[k]).value)
        ensures forall proofEpoch :: HasProof(members[k], proofEpoch) ==>
                  MaxEpoch(members[k]).Some? && MaxEpoch(members[k]).value <= proofEpoch
      {
        MaxEpochIsTheEarliestProof(members[k]);
      }
      var bounds := seq(|members|, k requires 0 <= k < |members| => MaxEpoch(members[k]));
      assert MaxEpoch(signer) == Earliest(bounds);
      EarliestIsLeast(bounds);
      if MaxEpoch(signer).Some? {
        var k: nat :| k < |bounds| && bounds[k] == MaxEpoch(signer);
        assert HasProof(members[k], MaxEpoch(signer).value);
      }
      forall proofEpoch | HasProof(signer, proofEpoch)
        ensures MaxEpoch(signer).Some? && MaxEpoch(signer).value <= proofEpoch
      {
        var k: nat :| k < |members| && HasProof(members[k], proofEpoch);
        assert bounds[k] == MaxEpoch(members[k]);
      }
  }

  /** `checkMaxEpoch`: bytes that cannot begin by the proof's last epoch are refused. */
  predicate ProofCovers(proofEpoch: nat, expiration: Expiration) {
    !(MinEpochOf(expiration).Some? && MinEpochOf(expiration).value > proofEpoch)
  }

  /** No proof under this signer refuses bytes with this expiration. */
  predicate SignsBytes(signer: Signer, expiration: Expiration) {
    match signer
    case KeySigner(_) => true
    case ZkLogin(_, proofEpoch) => ProofCovers(proofEpoch, expiration)
    case MultiSigSigner(_, members) => forall k :: 0 <= k < |members| ==> SignsBytes(members[k], expiration)
    case AliasSigner(_, inner) => SignsBytes(inner, expiration)
  }

  lemma {:induction false} SignsIffEveryProofCovers(signer: Signer, expiration: Expiration)
    ensures SignsBytes(signer, expiration) <==>
            forall proofEpoch :: HasProof(signer, proofEpoch) ==> ProofCovers(proofEpoch, expiration)
  {
    match signer
    case KeySigner(_) =>
    case ZkLogin(_, epoch) =>
      assert HasProof(signer, epoch);
    case AliasSigner(_, inner) =>
      SignsIffEveryProofCovers(inner, expiration);
    case MultiSigSigner(_, members) =>
      forall k | 0 <= k < |members|
        ensures SignsBytes(members[k], expiration) <==>
                forall proofEpoch :: HasProof(members[k], proofEpoch) ==> ProofCovers(proofEpoch, expiration)
      {
        SignsIffEveryProofCovers(members[k], expiration);
      }
  }
}
