/**
 * `megablock` (all trials for one target, in exact quotas, shuffled) and
 * `splitMegablockIntoBlocks` (equal contiguous blocks, each headed by the
 * target).
 */
module Blocks {
  import opened Wrappers
  import opened Stimuli
  import opened Trials
  import opened Options
  import Sampling

  /** The target record: role `target`, no target of its own. */
  function TargetRecord(target: Stimulus): (r: Trial)
    ensures r.stim == target && r.role == Target && r.target.None?
    ensures r.blockNum.None? && r.trialNum.None?
  {
    Tag(target, Target, None)
  }

  /** An exact match: a copy of the target pointing at the target's fname. */
  function ExactMatchRecord(target: Stimulus): (r: Trial)
    ensures r.stim == target && r.role == ExactMatch && r.target == Some(target.fname)
    ensures r.blockNum.None? && r.trialNum.None?
  {
    Tag(target, ExactMatch, Some(target.fname))
  }

  /**
   * A trial of `target`'s megablock: never the target role, always pointing at
   * the target; an exact match is a copy of the target and every other trial
   * is a pool item that earns its role.
   */
  predicate BelongsTo(t: Trial, target: Stimulus, items: seq<Stimulus>, cond: Condition)
  {
    t.target == Some(target.fname) &&
    match t.role
    case Target => false
    case ExactMatch => t.stim == target
    case _ => t.stim in items && RoleFor(target, t.stim, cond) == Some(t.role)
  }

  /** The tally a megablock must have. */
  function Composition(numExactMatch: nat, numShapeLure: nat, numTextureLure: nat, numFiller: nat): multiset<Role>
  {
    Only(ExactMatch, numExactMatch) + Only(ShapeLure, numShapeLure) +
    Only(TextureLure, numTextureLure) + Only(Filler, numFiller)
  }

  /**
   * `megablock`: `numExactMatch` exact matches plus the requested numbers of
   * with-replacement draws from each option list, shuffled; returned with the
   * target record. Fails exactly when `optionsByRole` does.
   */
  method Megablock(targetIn: Stimulus, items: seq<Stimulus>, numExactMatch: nat, numShapeLure: nat,
                   numTextureLure: nat, numFiller: nat, cond: Condition)
    returns (r: Result<(seq<Trial>, Trial)>)
    ensures r.Failure? <==> OptionsError(targetIn, items, cond).Some?
    ensures r.Failure? ==> r.error == OptionsError(targetIn, items, cond).value
    ensures r.Success? ==> r.value.1 == TargetRecord(targetIn)
    ensures r.Success? ==> |r.value.0| == numExactMatch + numShapeLure + numTextureLure + numFiller
    ensures r.Success? ==>
      RoleCounts(r.value.0) == Composition(numExactMatch, numShapeLure, numTextureLure, numFiller)
    ensures r.Success? ==> forall t :: t in r.value.0 ==> BelongsTo(t, targetIn, items, cond)
    ensures r.Success? ==> forall t :: t in r.value.0 ==> t.blockNum.None? && t.trialNum.None?
  {
    var target := TargetRecord(targetIn);
    var exactMatch := ExactMatchRecord(targetIn);

    var options :- OptionsByRole(targetIn, items, cond);

    var block: seq<Trial> := [];
    for i := 0 to numExactMatch
      invariant |block| == i
      invariant forall t :: t in block ==> t == exactMatch
    {
      block := block + [exactMatch];
    }

    // None of the three draws can fail: every option list is non-empty.
    var shapeLures := Sampling.SampleWithReplacement(options.shapeLures, numShapeLure);
    var textureLures := Sampling.SampleWithReplacement(options.textureLures, numTextureLure);
    var fillers := Sampling.SampleWithReplacement(options.fillers, numFiller);
    assert shapeLures.Success? && textureLures.Success? && fillers.Success?;

    var all := block + shapeLures.value + textureLures.value + fillers.value;
    AssembledMegablock(targetIn, items, cond, options, block, shapeLures.value, textureLures.value, fillers.value);

    var shuffledBlock := Sampling.Shuffle(all);
    RoleCountsPermutation(shuffledBlock, all);
    forall t | t in shuffledBlock
      ensures BelongsTo(t, targetIn, items, cond) && t.blockNum.None? && t.trialNum.None?
    {
      assert t in multiset(shuffledBlock);
    }
    return Success((shuffledBlock, target));
  }

  /** The unshuffled megablock has the required tally, and every trial belongs. */
  lemma AssembledMegablock(target: Stimulus, items: seq<Stimulus>, cond: Condition, options: RoleLists,
                           exact: seq<Trial>, shapes: seq<Trial>, textures: seq<Trial>, fillers: seq<Trial>)
    requires ValidOptions(target, items, cond, options)
    requires forall t :: t in exact ==> t == ExactMatchRecord(target)
    requires forall t :: t in shapes ==> t in options.shapeLures
    requires forall t :: t in textures ==> t in options.textureLures
    requires forall t :: t in fillers ==> t in options.fillers
    ensures RoleCounts(exact + shapes + textures + fillers) == Composition(|exact|, |shapes|, |textures|, |fillers|)
    ensures forall t :: t in exact + shapes + textures + fillers ==>
      BelongsTo(t, target, items, cond) && t.blockNum.None? && t.trialNum.None?
  {
    RoleCountsUniform(exact, ExactMatch);
    RoleCountsUniform(shapes, ShapeLure);
    RoleCountsUniform(textures, TextureLure);
    RoleCountsUniform(fillers, Filler);
    RoleCountsConcat(exact, shapes);
    RoleCountsConcat(exact + shapes, textures);
    RoleCountsConcat(exact + shapes + textures, fillers);
    forall t | t in exact + shapes + textures + fillers
      ensures BelongsTo(t, target, items, cond) && t.blockNum.None? && t.trialNum.None?
    {
      if t in exact {
      } else if t in shapes {
        OptionBelongs(target, items, cond, ShapeLure, t);
      } else if t in textures {
        OptionBelongs(target, items, cond, TextureLure, t);
      } else {
        OptionBelongs(target, items, cond, Filler, t);
      }
    }
  }

  /** A lure or filler option belongs to its target's megablock. */
  lemma OptionBelongs(target: Stimulus, items: seq<Stimulus>, cond: Condition, role: Role, t: Trial)
    requires role != Target && role != ExactMatch
    requires IsOption(target, items, cond, role, t)
    ensures BelongsTo(t, target, items, cond) && t.blockNum.None? && t.trialNum.None?
  {
  }

  // ---------------------------------------------------------------------
  // splitMegablockIntoBlocks
  // ---------------------------------------------------------------------

  /** Each block without its head. */
  function Tails<T>(blocks: seq<seq<T>>): (r: seq<seq<T>>)
    ensures |r| == |blocks|
  {
    seq(|blocks|, i requires 0 <= i < |blocks| => if blocks[i] == [] then [] else blocks[i][1..])
  }

  /**
   * `splitMegablockIntoBlocks`: cuts the trials into `numBlocksPerTarget`
   * contiguous equal slices, in order, and puts the target in front of each.
   * An empty list fails first; then a count that does not divide the length
   * (a zero count included: `len % 0` is `NaN` in the source) fails.
   */
  method SplitMegablockIntoBlocks(allTrialsThisTarget: seq<Trial>, target: Trial, numBlocksPerTarget: nat)
    returns (r: Result<seq<seq<Trial>>>)
    ensures r.Failure? <==>
      allTrialsThisTarget == [] || numBlocksPerTarget == 0 || |allTrialsThisTarget| % numBlocksPerTarget != 0
    ensures r.Failure? ==>
      r.error == (if allTrialsThisTarget == [] then EmptyMegablock else InfeasibleBlockCount)
    ensures r.Success? ==> |r.value| == numBlocksPerTarget
    ensures r.Success? ==> forall b :: b in r.value ==>
      |b| == |allTrialsThisTarget| / numBlocksPerTarget + 1 && b[0] == target
    ensures r.Success? ==> Flatten(Tails(r.value)) == allTrialsThisTarget
  {
    if allTrialsThisTarget == [] {
      return Failure(EmptyMegablock);
    }
    if numBlocksPerTarget == 0 || |allTrialsThisTarget| % numBlocksPerTarget != 0 {
      return Failure(InfeasibleBlockCount);
    }
    var step := |allTrialsThisTarget| / numBlocksPerTarget;
    ExactDivision(|allTrialsThisTarget|, numBlocksPerTarget);
    var blocks := CutIntoBlocks(allTrialsThisTarget, target, numBlocksPerTarget, step);
    return Success(blocks);
  }

  /**
   * The loop of `splitMegablockIntoBlocks` over the start indices
   * `0, step, 2·step, …`: each slice of `step` trials, in order, behind a
   * copy of the target.
   */
  method CutIntoBlocks(allTrialsThisTarget: seq<Trial>, target: Trial, numBlocks: nat, step: nat)
    returns (blocks: seq<seq<Trial>>)
    requires Times(numBlocks, step) == |allTrialsThisTarget|
    ensures |blocks| == numBlocks
    ensures forall b :: b in blocks ==> |b| == step + 1 && b[0] == target
    ensures Flatten(Tails(blocks)) == allTrialsThisTarget
  {
    blocks := [];
    var start := 0;  // blockStartInds[i]
    for i := 0 to numBlocks
      invariant |blocks| == i
      invariant start == Times(i, step)
      invariant start <= |allTrialsThisTarget|
      invariant forall b :: b in blocks ==> |b| == step + 1 && b[0] == target
      invariant Flatten(Tails(blocks)) == allTrialsThisTarget[..start]
    {
      TimesMonotone(i + 1, numBlocks, step);
      var block := [target] + allTrialsThisTarget[start..start + step];
      SplitStep(allTrialsThisTarget, blocks, target, start, step);
      blocks := blocks + [block];
      start := start + step;
    }
    assert allTrialsThisTarget[..start] == allTrialsThisTarget;
  }

  /** Appending the next slice as a block extends the covered prefix by that slice. */
  lemma SplitStep<T>(all: seq<T>, blocks: seq<seq<T>>, target: T, start: nat, step: nat)
    requires start + step <= |all|
    requires Flatten(Tails(blocks)) == all[..start]
    ensures Flatten(Tails(blocks + [[target] + all[start..start + step]])) == all[..start + step]
  {
    var block := [target] + all[start..start + step];
    assert Tails(blocks + [block]) == Tails(blocks) + [block[1..]];
    FlattenConcat(Tails(blocks), [block[1..]]);
    assert Flatten([block[1..]]) == block[1..] == all[start..start + step];
    assert all[..start + step] == all[..start] + block[1..];
  }

  /** `i * step`, by repeated addition (the block start indices of `_.range`). */
  function Times(i: nat, step: nat): nat
  {
    if i == 0 then 0 else Times(i - 1, step) + step
  }

  /** Cutting `len` into `numBlocks` slices of `len / numBlocks` leaves nothing over. */
  lemma ExactDivision(len: nat, numBlocks: nat)
    requires numBlocks > 0 && len % numBlocks == 0
    ensures Times(numBlocks, len / numBlocks) == len
  {
    TimesIsProduct(numBlocks, len / numBlocks);
  }

  lemma {:induction false} TimesIsProduct(i: nat, step: nat)
    ensures Times(i, step) == i * step
  {
    if i > 0 {
      TimesIsProduct(i - 1, step);
    }
  }

  lemma {:induction false} TimesMonotone(i: nat, j: nat, step: nat)
    requires i <= j
    ensures Times(i, step) <= Times(j, step)
    decreases j - i
  {
    if i < j {
      TimesMonotone(i, j - 1, step);
    }
  }
}
