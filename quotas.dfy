/** `trialTypesPerMegablock`: how one target's trials split into trial types. */
module Quotas {
  import opened Wrappers

  /** The four counts, in the order the source returns them. */
  datatype Quota = Quota(exactMatch: nat, shapeLure: nat, textureLure: nat, filler: nat)

  function Total(q: Quota): nat
  {
    q.exactMatch + q.shapeLure + q.textureLure + q.filler
  }

  /**
   * Half of the `numBlocksPerTarget * numTrialsPerBlock` trials are exact
   * matches; the other half is split three ways with floor division, the
   * remainder going to fillers. An odd total is infeasible.
   */
  function TrialTypesPerMegablock(numBlocksPerTarget: nat, numTrialsPerBlock: nat): (r: Result<Quota>)
    ensures r.Failure? <==> (numBlocksPerTarget * numTrialsPerBlock) % 2 != 0
    ensures r.Failure? ==> r.error == InfeasibleTrialParameters
    ensures r.Success? ==> Total(r.value) == numBlocksPerTarget * numTrialsPerBlock
    ensures r.Success? ==> 2 * r.value.exactMatch == numBlocksPerTarget * numTrialsPerBlock
    ensures r.Success? ==> r.value.shapeLure == r.value.textureLure
    ensures r.Success? ==> r.value.shapeLure <= r.value.filler <= r.value.shapeLure + 2
  {
    var numTrialsPerMegablock := numBlocksPerTarget * numTrialsPerBlock;
    if numTrialsPerMegablock % 2 != 0 then Failure(InfeasibleTrialParameters)
    else
      var numExactMatch := numTrialsPerMegablock / 2;
      var numNonMatch := numTrialsPerMegablock - numExactMatch;
      var numShapeLure := numNonMatch / 3;
      var numTextureLure := numNonMatch / 3;
      var numFiller := numNonMatch - numShapeLure - numTextureLure;
      Success(Quota(numExactMatch, numShapeLure, numTextureLure, numFiller))
  }

  /**
   * The non-match half is split as evenly as three integers can split it: no
   * other choice of equal lure counts with filler in range sums the same.
   */
  lemma QuotaIsUnique(numBlocksPerTarget: nat, numTrialsPerBlock: nat, q: Quota)
    requires (numBlocksPerTarget * numTrialsPerBlock) % 2 == 0
    requires Total(q) == numBlocksPerTarget * numTrialsPerBlock
    requires 2 * q.exactMatch == numBlocksPerTarget * numTrialsPerBlock
    requires q.shapeLure == q.textureLure <= q.filler <= q.shapeLure + 2
    ensures TrialTypesPerMegablock(numBlocksPerTarget, numTrialsPerBlock) == Success(q)
  {
    var total := numBlocksPerTarget * numTrialsPerBlock;
    ThirdIsFloor(total - q.exactMatch, q.shapeLure, q.filler);
  }

  lemma ThirdIsFloor(nonMatch: nat, lure: nat, filler: nat)
    requires nonMatch == 2 * lure + filler && lure <= filler <= lure + 2
    ensures nonMatch / 3 == lure
  {
  }

  /** One block of 50 trials per target gives (25, 8, 8, 9). */
  lemma OneBlockOfFifty()
    ensures TrialTypesPerMegablock(1, 50) == Success(Quota(25, 8, 8, 9))
  {
  }

  /** Two blocks of 50 trials per target give (50, 16, 16, 18). */
  lemma TwoBlocksOfFifty()
    ensures TrialTypesPerMegablock(2, 50) == Success(Quota(50, 16, 16, 18))
  {
  }

  /** One block of 25 trials per target is rejected. */
  lemma OneBlockOfTwentyFive()
    ensures TrialTypesPerMegablock(1, 25) == Failure(InfeasibleTrialParameters)
  {
  }
}
