/**
 * `generateTrialSpecs`: parses the stimulus pool, draws the targets, builds
 * and splits one megablock per target, shuffles the blocks, stamps
 * `block_num`/`trial_num` on every record in place and flattens.
 */
module Generator {
  import opened Wrappers
  import opened Stimuli
  import opened Trials
  import opened Quotas
  import opened Options
  import opened Blocks
  import Sampling

  // ---------------------------------------------------------------------
  // Numbering (in place)
  // ---------------------------------------------------------------------

  /** A record with its block and trial identifiers set. */
  function Stamp(t: Trial, blockNum: nat, trialNum: nat): (r: Trial)
    ensures r.blockNum == Some(blockNum) && r.trialNum == Some(trialNum)
    ensures r.stim == t.stim && r.role == t.role && r.target == t.target
  {
    t.(blockNum := Some(blockNum), trialNum := Some(trialNum))
  }

  /** Block `k` with every record stamped with `k` and its position. */
  function NumberBlock(b: seq<Trial>, k: nat): (r: seq<Trial>)
    ensures |r| == |b|
    ensures forall j :: 0 <= j < |r| ==> r[j].blockNum == Some(k) && r[j].trialNum == Some(j)
    ensures forall j :: 0 <= j < |r| ==> r[j].stim == b[j].stim && r[j].role == b[j].role && r[j].target == b[j].target
  {
    seq(|b|, j requires 0 <= j < |b| => Stamp(b[j], k, j))
  }

  /** The blocks as they are after the numbering loops. */
  function Numbered(bs: seq<seq<Trial>>): (r: seq<seq<Trial>>)
    ensures |r| == |bs|
  {
    seq(|bs|, k requires 0 <= k < |bs| => NumberBlock(bs[k], k))
  }

  /**
   * The two nested loops that write `block_num = i` and `trial_num = j` into
   * every record of the shuffled blocks.
   */
  method NumberBlocks(shuffledBlocks: array<seq<Trial>>)
    modifies shuffledBlocks
    ensures shuffledBlocks[..] == Numbered(old(shuffledBlocks[..]))
  {
    ghost var orig := shuffledBlocks[..];
    for i := 0 to shuffledBlocks.Length
      invariant forall k :: 0 <= k < i ==> shuffledBlocks[k] == NumberBlock(orig[k], k)
      invariant forall k :: i <= k < shuffledBlocks.Length ==> shuffledBlocks[k] == orig[k]
    {
      for j := 0 to |shuffledBlocks[i]|
        invariant |shuffledBlocks[i]| == |orig[i]|
        invariant forall m :: 0 <= m < j ==> shuffledBlocks[i][m] == Stamp(orig[i][m], i, m)
        invariant forall m :: j <= m < |orig[i]| ==> shuffledBlocks[i][m] == orig[i][m]
        invariant forall k :: 0 <= k < i ==> shuffledBlocks[k] == NumberBlock(orig[k], k)
        invariant forall k :: i < k < shuffledBlocks.Length ==> shuffledBlocks[k] == orig[k]
      {
        shuffledBlocks[i] := shuffledBlocks[i][j := Stamp(shuffledBlocks[i][j], i, j)];
      }
      assert shuffledBlocks[i] == NumberBlock(orig[i], i);
    }
  }

  /** Numbering touches neither the item, the role nor the target of a record. */
  lemma {:induction false} NumberBlockKeepsRoles(b: seq<Trial>, k: nat)
    ensures RolesOf(NumberBlock(b, k)) == RolesOf(b)
  {
    RolesOfPointwise(NumberBlock(b, k), b);
  }

  lemma {:induction false} RolesOfPointwise(a: seq<Trial>, b: seq<Trial>)
    requires |a| == |b|
    requires forall j :: 0 <= j < |a| ==> a[j].role == b[j].role
    ensures RolesOf(a) == RolesOf(b)
    decreases |a|
  {
    if a != [] {
      RolesOfPointwise(a[1..], b[1..]);
    }
  }

  /** Numbering all blocks leaves the tally of the flattened list unchanged. */
  lemma {:induction false} NumberedKeepsRoleCounts(bs: seq<seq<Trial>>)
    ensures RoleCounts(Flatten(Numbered(bs))) == RoleCounts(Flatten(bs))
  {
    forall k | 0 <= k < |bs|
      ensures RolesOf(Numbered(bs)[k]) == RolesOf(bs[k])
    {
      NumberBlockKeepsRoles(bs[k], k);
    }
    FlattenSameRoles(Numbered(bs), bs);
  }

  lemma {:induction false} FlattenSameRoles(bs: seq<seq<Trial>>, cs: seq<seq<Trial>>)
    requires |bs| == |cs|
    requires forall k :: 0 <= k < |bs| ==> RolesOf(bs[k]) == RolesOf(cs[k])
    ensures RolesOf(Flatten(bs)) == RolesOf(Flatten(cs))
    decreases |bs|
  {
    if bs != [] {
      FlattenSameRoles(bs[1..], cs[1..]);
      RolesOfConcat(bs[0], Flatten(bs[1..]));
      RolesOfConcat(cs[0], Flatten(cs[1..]));
    }
  }

  // ---------------------------------------------------------------------
  // What a generated block looks like
  // ---------------------------------------------------------------------

  /**
   * A block as `splitMegablockIntoBlocks` emits it: the target record of a
   * pool item, followed by `numTrialsPerBlock` trials of that target.
   */
  predicate IsBlock(b: seq<Trial>, numTrialsPerBlock: nat, items: seq<Stimulus>, cond: Condition)
  {
    |b| == numTrialsPerBlock + 1 &&
    b[0].role == Target && b[0].target.None? && b[0].stim in items &&
    forall j :: 1 <= j < |b| ==> BelongsTo(b[j], b[0].stim, items, cond)
  }

  /**
   * A block of `target`'s own: its unnumbered target record, followed by
   * `numTrialsPerBlock` trials that point at it.
   */
  predicate IsTargetBlock(b: seq<Trial>, target: Stimulus, numTrialsPerBlock: nat, items: seq<Stimulus>,
                          cond: Condition)
  {
    |b| == numTrialsPerBlock + 1 && b[0] == TargetRecord(target) &&
    forall j :: 1 <= j < |b| ==> BelongsTo(b[j], target, items, cond)
  }

  /**
   * The blocks one pass of the target loop contributes: `numBlocksPerTarget`
   * blocks of `target`'s, tallying to its megablock.
   */
  predicate IsTargetGroup(g: seq<seq<Trial>>, target: Stimulus, q: Quota, numBlocksPerTarget: nat,
                          numTrialsPerBlock: nat, items: seq<Stimulus>, cond: Condition)
  {
    |g| == numBlocksPerTarget &&
    (forall b :: b in g ==> IsTargetBlock(b, target, numTrialsPerBlock, items, cond)) &&
    RoleCounts(Flatten(g)) == MegablockTally(q, numBlocksPerTarget)
  }

  /** A block of a pool item's own is a generated block. */
  lemma TargetGroupBlocks(g: seq<seq<Trial>>, target: Stimulus, q: Quota, numBlocksPerTarget: nat,
                          numTrialsPerBlock: nat, items: seq<Stimulus>, cond: Condition)
    requires target in items
    requires IsTargetGroup(g, target, q, numBlocksPerTarget, numTrialsPerBlock, items, cond)
    ensures forall b :: b in g ==> IsBlock(b, numTrialsPerBlock, items, cond)
  {
    forall b: seq<Trial> | b in g
      ensures IsBlock(b, numTrialsPerBlock, items, cond)
    {
      assert IsTargetBlock(b, target, numTrialsPerBlock, items, cond);
      assert b[0].stim == target;
    }
  }

  /**
   * One drawn target's share of the output: a target record heading each of
   * its blocks, exact matches for half of its b·t trials, as many shape
   * lures as texture lures, and fillers at most two above them.
   */
  lemma TargetShare(g: seq<seq<Trial>>, target: Stimulus, numBlocksPerTarget: nat, numTrialsPerBlock: nat,
                    items: seq<Stimulus>, cond: Condition)
    requires TrialTypesPerMegablock(numBlocksPerTarget, numTrialsPerBlock).Success?
    requires IsTargetGroup(g, target, TrialTypesPerMegablock(numBlocksPerTarget, numTrialsPerBlock).value,
                           numBlocksPerTarget, numTrialsPerBlock, items, cond)
    ensures var c := RoleCounts(Flatten(g));
      c[Target] == numBlocksPerTarget && 2 * c[ExactMatch] == numBlocksPerTarget * numTrialsPerBlock &&
      c[ShapeLure] == c[TextureLure] && c[ShapeLure] <= c[Filler] <= c[ShapeLure] + 2
  {
    var q := TrialTypesPerMegablock(numBlocksPerTarget, numTrialsPerBlock).value;
    assert RoleCounts(Flatten(g)) == MegablockTally(q, numBlocksPerTarget);
    MegablockTallyCounts(q, numBlocksPerTarget);
  }

  /** A target's share holds one target record per block and each trial type's quota. */
  lemma MegablockTallyCounts(q: Quota, numBlocksPerTarget: nat)
    ensures var m := MegablockTally(q, numBlocksPerTarget);
      m[Target] == numBlocksPerTarget && m[ExactMatch] == q.exactMatch && m[ShapeLure] == q.shapeLure &&
      m[TextureLure] == q.textureLure && m[Filler] == q.filler
  {
  }

  /** Block number `k` of the output: a generated block, stamped with `k` and positions. */
  predicate IsNumberedBlock(b: seq<Trial>, k: nat, numTrialsPerBlock: nat, items: seq<Stimulus>, cond: Condition)
  {
    IsBlock(b, numTrialsPerBlock, items, cond) &&
    forall j :: 0 <= j < |b| ==> b[j].blockNum == Some(k) && b[j].trialNum == Some(j)
  }

  /** Stamping a generated block makes it block `k` of the output. */
  lemma NumberBlockIsNumbered(b: seq<Trial>, k: nat, numTrialsPerBlock: nat, items: seq<Stimulus>, cond: Condition)
    requires IsBlock(b, numTrialsPerBlock, items, cond)
    ensures IsNumberedBlock(NumberBlock(b, k), k, numTrialsPerBlock, items, cond)
  {
    var nb := NumberBlock(b, k);
    forall j | 1 <= j < |nb|
      ensures BelongsTo(nb[j], nb[0].stim, items, cond)
    {
      assert nb[j].stim == b[j].stim && nb[j].role == b[j].role && nb[j].target == b[j].target;
    }
  }

  /** The tally of one target's blocks: its target records plus its megablock. */
  function MegablockTally(q: Quota, numBlocksPerTarget: nat): multiset<Role>
  {
    Only(Target, numBlocksPerTarget) + Composition(q.exactMatch, q.shapeLure, q.textureLure, q.filler)
  }

  /** `n` copies of a tally. */
  function Repeat(m: multiset<Role>, n: nat): multiset<Role>
  {
    if n == 0 then multiset{} else Repeat(m, n - 1) + m
  }

  lemma {:induction false} RepeatCount(m: multiset<Role>, n: nat, role: Role)
    ensures Repeat(m, n)[role] == n * m[role]
  {
    if n > 0 {
      RepeatCount(m, n - 1, role);
      assert n * m[role] == (n - 1) * m[role] + m[role];
    }
  }

  /** Blocks headed by target records tally to their heads plus their tails. */
  lemma {:induction false} HeadsAndTails(bs: seq<seq<Trial>>)
    requires forall b: seq<Trial> :: b in bs ==> b != [] && b[0].role == Target
    ensures RoleCounts(Flatten(bs)) == Only(Target, |bs|) + RoleCounts(Flatten(Tails(bs)))
    decreases |bs|
  {
    if bs != [] {
      var b, rest := bs[0], bs[1..];
      assert b in bs;
      assert forall c :: c in rest ==> c in bs;
      HeadsAndTails(rest);
      HeadAndTail(b);
      TailsCons(bs);
      RoleCountsConcat(b, Flatten(rest));
      RoleCountsConcat(b[1..], Flatten(Tails(rest)));
      OnlySucc(Target, |rest|);
      Regroup(RoleCounts(Flatten(bs)), RoleCounts(b), RoleCounts(Flatten(rest)), Only(Target, 1),
              RoleCounts(b[1..]), Only(Target, |rest|), RoleCounts(Flatten(Tails(rest))),
              RoleCounts(Flatten(Tails(bs))), Only(Target, |bs|));
    } else {
      assert Tails(bs) == [];
      assert Only(Target, 0) == multiset{};
    }
  }

  /** Flattening the tails of non-empty blocks, one block at a time. */
  lemma TailsCons(bs: seq<seq<Trial>>)
    requires bs != [] && bs[0] != []
    ensures Flatten(bs) == bs[0] + Flatten(bs[1..])
    ensures Flatten(Tails(bs)) == bs[0][1..] + Flatten(Tails(bs[1..]))
  {
    assert Tails(bs)[0] == bs[0][1..] && Tails(bs)[1..] == Tails(bs[1..]);
  }

  /** The tally bookkeeping of one step of `HeadsAndTails`. */
  lemma Regroup(whole: multiset<Role>, first: multiset<Role>, others: multiset<Role>,
                head: multiset<Role>, tail: multiset<Role>, heads: multiset<Role>,
                tails: multiset<Role>, allTails: multiset<Role>, allHeads: multiset<Role>)
    requires whole == first + others && first == head + tail && others == heads + tails
    requires allTails == tail + tails && allHeads == head + heads
    ensures whole == allHeads + allTails
  {
  }

  lemma OnlySucc(role: Role, n: nat)
    ensures Only(role, n + 1) == Only(role, 1) + Only(role, n)
  {
  }

  /** A block headed by a target record tallies to that head plus its tail. */
  lemma HeadAndTail(b: seq<Trial>)
    requires b != [] && b[0].role == Target
    ensures RoleCounts(b) == Only(Target, 1) + RoleCounts(b[1..])
  {
    assert b == [b[0]] + b[1..];
    RoleCountsConcat([b[0]], b[1..]);
    RoleCountsUniform([b[0]], Target);
  }

  /**
   * The blocks split from one target's megablock are generated blocks and
   * tally to that target's share.
   */
  lemma SplitBlocks(mb: seq<Trial>, target: Stimulus, split: seq<seq<Trial>>, q: Quota,
                    numBlocksPerTarget: nat, numTrialsPerBlock: nat, items: seq<Stimulus>, cond: Condition)
    requires target in items
    requires RoleCounts(mb) == Composition(q.exactMatch, q.shapeLure, q.textureLure, q.filler)
    requires forall t :: t in mb ==> BelongsTo(t, target, items, cond)
    requires |split| == numBlocksPerTarget
    requires forall b :: b in split ==> |b| == numTrialsPerBlock + 1 && b[0] == TargetRecord(target)
    requires Flatten(Tails(split)) == mb
    ensures IsTargetGroup(split, target, q, numBlocksPerTarget, numTrialsPerBlock, items, cond)
  {
    forall b: seq<Trial> | b in split
      ensures IsTargetBlock(b, target, numTrialsPerBlock, items, cond)
    {
      SplitBlockIsBlock(mb, target, split, b, numTrialsPerBlock, items, cond);
    }
    HeadsAndTails(split);
  }

  /** Appending one target's blocks keeps the loop's invariant. */
  lemma AppendBlocks(blocks: seq<seq<Trial>>, split: seq<seq<Trial>>, tally: multiset<Role>,
                     numBlocksPerTarget: nat, numTrialsPerBlock: nat, items: seq<Stimulus>, cond: Condition, i: nat)
    requires |split| == numBlocksPerTarget
    requires forall b :: b in split ==> IsBlock(b, numTrialsPerBlock, items, cond)
    requires RoleCounts(Flatten(split)) == tally
    requires |blocks| == Times(i, numBlocksPerTarget)
    requires forall b :: b in blocks ==> IsBlock(b, numTrialsPerBlock, items, cond)
    requires RoleCounts(Flatten(blocks)) == Repeat(tally, i)
    ensures |blocks + split| == Times(i + 1, numBlocksPerTarget)
    ensures forall b :: b in blocks + split ==> IsBlock(b, numTrialsPerBlock, items, cond)
    ensures RoleCounts(Flatten(blocks + split)) == Repeat(tally, i + 1)
  {
    FlattenConcat(blocks, split);
    RoleCountsConcat(Flatten(blocks), Flatten(split));
  }

  lemma SplitBlockIsBlock(mb: seq<Trial>, target: Stimulus, split: seq<seq<Trial>>, b: seq<Trial>,
                          numTrialsPerBlock: nat, items: seq<Stimulus>, cond: Condition)
    requires target in items
    requires forall t :: t in mb ==> BelongsTo(t, target, items, cond)
    requires Flatten(Tails(split)) == mb
    requires b in split && |b| == numTrialsPerBlock + 1 && b[0] == TargetRecord(target)
    ensures IsTargetBlock(b, target, numTrialsPerBlock, items, cond)
  {
    forall j | 1 <= j < |b|
      ensures BelongsTo(b[j], target, items, cond)
    {
      TailElementInFlatten(split, b, j);
    }
  }

  /** A product divides back exactly. */
  lemma ProductDivision(k: nat, n: nat)
    requires k > 0
    ensures (k * n) / k == n && (k * n) % k == 0
  {
    var q, r := (k * n) / k, (k * n) % k;
    assert k * n == k * q + r && 0 <= r < k;
    if q < n {
      MulAtLeast(k, n - q);
    }
  }

  lemma {:induction false} MulAtLeast(k: nat, d: nat)
    requires d >= 1
    ensures k * d >= k
  {
    if d > 1 {
      MulAtLeast(k, d - 1);
      assert k * d == k * (d - 1) + k;
    }
  }

  lemma {:induction false} TailElementInFlatten(bs: seq<seq<Trial>>, b: seq<Trial>, j: nat)
    requires b in bs && 1 <= j < |b|
    ensures b[j] in Flatten(Tails(bs))
    decreases |bs|
  {
    assert Tails(bs) == [if bs[0] == [] then [] else bs[0][1..]] + Tails(bs[1..]);
    if b == bs[0] {
      assert b[j] == b[1..][j - 1];
    } else {
      TailElementInFlatten(bs[1..], b, j);
    }
  }

  /** Reordering whole blocks keeps the tally of the flattened list. */
  lemma ShuffledBlocksKeepRoleCounts(s: seq<seq<Trial>>, t: seq<seq<Trial>>)
    requires multiset(s) == multiset(t)
    ensures RoleCounts(Flatten(s)) == RoleCounts(Flatten(t))
  {
    FlattenPermutation(s, t);
    RoleCountsPermutation(Flatten(s), Flatten(t));
  }

  // ---------------------------------------------------------------------
  // generateTrialSpecs
  // ---------------------------------------------------------------------

  /** Every name of the pool parses, and `items` holds the parsed items in order. */
  predicate ParsedPool(stimFnames: seq<string>, cond: Condition, items: seq<Stimulus>)
  {
    |items| == |stimFnames| &&
    forall i :: 0 <= i < |stimFnames| ==> ParseFilename(stimFnames[i], cond) == Success(items[i])
  }

  /** Whether every pool item, as a target, leaves all three option lists non-empty. */
  predicate EveryTargetHasOptions(items: seq<Stimulus>, cond: Condition)
  {
    forall s :: s in items ==> OptionsError(s, items, cond).None?
  }

  /** The errors one pass of the target loop can throw. */
  predicate IsPassError(e: Error)
  {
    e.EmptyShapeLures? || e.EmptyTextureLures? || e.EmptyFillers? || e.EmptyMegablock?
  }

  /**
   * Why one pass of the target loop fails: the target's options error, or,
   * when b·t is 0, the empty megablock that `splitMegablockIntoBlocks`
   * rejects before anything else. A megablock of b·t > 0 trials always splits.
   */
  function TargetError(target: Stimulus, pool: seq<Stimulus>, cond: Condition,
                       numBlocksPerTarget: nat, numTrialsPerBlock: nat): (r: Option<Error>)
    ensures r.Some? ==> IsPassError(r.value)
  {
    if OptionsError(target, pool, cond).Some? then OptionsError(target, pool, cond)
    else if numBlocksPerTarget * numTrialsPerBlock == 0 then Some(EmptyMegablock)
    else None
  }

  /** The error of the first target, in loop order, whose pass fails. */
  function FirstTargetError(targets: seq<Stimulus>, pool: seq<Stimulus>, cond: Condition,
                            numBlocksPerTarget: nat, numTrialsPerBlock: nat): (r: Option<Error>)
    ensures r.Some? ==> IsPassError(r.value)
  {
    if targets == [] then None
    else if TargetError(targets[0], pool, cond, numBlocksPerTarget, numTrialsPerBlock).Some? then
      TargetError(targets[0], pool, cond, numBlocksPerTarget, numTrialsPerBlock)
    else FirstTargetError(targets[1..], pool, cond, numBlocksPerTarget, numTrialsPerBlock)
  }

  /** The loop gets through all targets exactly when every target's pass succeeds. */
  lemma {:induction false} FirstTargetErrorNone(targets: seq<Stimulus>, pool: seq<Stimulus>, cond: Condition,
                                                numBlocksPerTarget: nat, numTrialsPerBlock: nat)
    ensures FirstTargetError(targets, pool, cond, numBlocksPerTarget, numTrialsPerBlock).None? <==>
      forall x :: x in targets ==> TargetError(x, pool, cond, numBlocksPerTarget, numTrialsPerBlock).None?
    decreases |targets|
  {
    if targets != [] {
      FirstTargetErrorNone(targets[1..], pool, cond, numBlocksPerTarget, numTrialsPerBlock);
      assert forall x :: x in targets <==> x == targets[0] || x in targets[1..];
    }
  }

  /** The first error from position `i` on: target `i`'s, or else the first after it. */
  lemma FirstTargetErrorFrom(targets: seq<Stimulus>, i: nat, pool: seq<Stimulus>, cond: Condition,
                             numBlocksPerTarget: nat, numTrialsPerBlock: nat)
    requires i < |targets|
    ensures FirstTargetError(targets[i..], pool, cond, numBlocksPerTarget, numTrialsPerBlock) ==
      if TargetError(targets[i], pool, cond, numBlocksPerTarget, numTrialsPerBlock).Some? then
        TargetError(targets[i], pool, cond, numBlocksPerTarget, numTrialsPerBlock)
      else FirstTargetError(targets[i + 1..], pool, cond, numBlocksPerTarget, numTrialsPerBlock)
  {
    assert targets[i..][0] == targets[i] && targets[i..][1..] == targets[i + 1..];
  }

  /**
   * `generateTrialSpecs`. The ghost `items` is the parsed pool, `drawn` the
   * sampled targets, `groups` the blocks each target's pass built (in draw
   * order), `shuffled` the blocks after `_.shuffle` and `blocks` the
   * numbered blocks whose concatenation is returned.
   */
  method GenerateTrialSpecs(stimFnames: seq<string>, cond: Condition, numTargets: nat,
                            numBlocksPerTarget: nat, numTrialsPerBlock: nat)
    returns (r: Result<seq<Trial>>, ghost items: seq<Stimulus>, ghost drawn: seq<Stimulus>,
             ghost groups: seq<seq<seq<Trial>>>, ghost shuffled: seq<seq<Trial>>, ghost blocks: seq<seq<Trial>>)
    // Which errors come out, in the source's order of checks.
    ensures (r.Failure? && r.error.MalformedFilename?) <==>
      exists i :: 0 <= i < |stimFnames| && ParseFilename(stimFnames[i], cond).Failure?
    ensures r.Failure? && r.error.MalformedFilename? ==>
      exists i :: 0 <= i < |stimFnames| && FirstMalformed(stimFnames, cond, i) &&
                  r.error == MalformedFilename(stimFnames[i])
    ensures (forall i :: 0 <= i < |stimFnames| ==> ParseFilename(stimFnames[i], cond).Success?) ==>
      ParsedPool(stimFnames, cond, items)
    ensures ParsedPool(stimFnames, cond, items) && stimFnames == [] ==> r == Failure(EmptyArr)
    ensures (ParsedPool(stimFnames, cond, items) && stimFnames != [] &&
             (numBlocksPerTarget * numTrialsPerBlock) % 2 != 0) ==> r == Failure(InfeasibleTrialParameters)
    // With a feasible quota the target loop decides: the first failing target's error, or success.
    ensures (ParsedPool(stimFnames, cond, items) && stimFnames != [] &&
             (numBlocksPerTarget * numTrialsPerBlock) % 2 == 0) ==>
      |drawn| == numTargets && (forall x :: x in drawn ==> x in items) &&
      (r.Failure? <==> FirstTargetError(drawn, items, cond, numBlocksPerTarget, numTrialsPerBlock).Some?) &&
      (r.Failure? ==> r.error == FirstTargetError(drawn, items, cond, numBlocksPerTarget, numTrialsPerBlock).value)
    ensures (ParsedPool(stimFnames, cond, items) && stimFnames != [] &&
             (numBlocksPerTarget * numTrialsPerBlock) % 2 == 0 && numTargets == 0) ==> r == Success([])
    ensures (ParsedPool(stimFnames, cond, items) && stimFnames != [] &&
             numBlocksPerTarget * numTrialsPerBlock == 0 && numTargets > 0) ==> r.Failure?
    ensures (ParsedPool(stimFnames, cond, items) && stimFnames != [] &&
             (numBlocksPerTarget * numTrialsPerBlock) % 2 == 0 && numBlocksPerTarget * numTrialsPerBlock > 0 &&
             EveryTargetHasOptions(items, cond)) ==> r.Success?
    // What a successful run returns.
    ensures r.Success? ==> ParsedPool(stimFnames, cond, items) && items != []
    ensures r.Success? ==> TrialTypesPerMegablock(numBlocksPerTarget, numTrialsPerBlock).Success?
    // Per drawn target, in draw order, the group of blocks its pass built;
    // the output blocks are all of these, shuffled, then numbered.
    ensures r.Success? ==> |groups| == |drawn| == numTargets
    ensures r.Success? ==> forall i :: 0 <= i < |drawn| ==>
      IsTargetGroup(groups[i], drawn[i], TrialTypesPerMegablock(numBlocksPerTarget, numTrialsPerBlock).value,
                    numBlocksPerTarget, numTrialsPerBlock, items, cond)
    ensures r.Success? ==> multiset(shuffled) == multiset(Flatten(groups)) && blocks == Numbered(shuffled)
    ensures r.Success? ==> r.value == Flatten(blocks)
    ensures r.Success? ==> |blocks| == numTargets * numBlocksPerTarget
    ensures r.Success? ==>
      forall k :: 0 <= k < |blocks| ==> IsNumberedBlock(blocks[k], k, numTrialsPerBlock, items, cond)
    ensures r.Success? ==>
      RoleCounts(r.value) == Repeat(MegablockTally(TrialTypesPerMegablock(numBlocksPerTarget, numTrialsPerBlock).value,
                                                   numBlocksPerTarget), numTargets)
    // The same, read off the flat list.
    ensures r.Success? ==> |r.value| == numTargets * numBlocksPerTarget * (numTrialsPerBlock + 1)
    ensures r.Success? ==> RoleCounts(r.value)[Target] == numTargets * numBlocksPerTarget
    ensures r.Success? ==> var q := TrialTypesPerMegablock(numBlocksPerTarget, numTrialsPerBlock).value;
      RoleCounts(r.value)[ExactMatch] == numTargets * q.exactMatch &&
      RoleCounts(r.value)[ShapeLure] == numTargets * q.shapeLure &&
      RoleCounts(r.value)[TextureLure] == numTargets * q.textureLure &&
      RoleCounts(r.value)[Filler] == numTargets * q.filler
    ensures r.Success? ==> LaidOut(r.value, numTrialsPerBlock + 1)
  {
    items, drawn, groups, shuffled, blocks := [], [], [], [], [];
    var parsed := StimProperties(stimFnames, cond);
    if parsed.Failure? {
      return Failure(parsed.error), items, drawn, groups, shuffled, blocks;
    }
    var pool := parsed.value;
    items := pool;
    var targets :- Sampling.SampleWithReplacement(pool, numTargets);
    drawn := targets;
    var quota :- TrialTypesPerMegablock(numBlocksPerTarget, numTrialsPerBlock);

    LoopOutcome(targets, pool, cond, numBlocksPerTarget, numTrialsPerBlock);
    var built;
    built, groups := BuildBlocks(targets, pool, quota, numBlocksPerTarget, numTrialsPerBlock, cond);
    if built.Failure? {
      return Failure(built.error), items, drawn, groups, shuffled, blocks;
    }
    var allBlocks := built.value;
    var numbered;
    numbered, shuffled := ShuffleAndNumber(allBlocks, numTrialsPerBlock, items, cond);
    blocks := numbered;
    FlatLayout(blocks, numTrialsPerBlock, items, cond);
    RepeatedTally(quota, numBlocksPerTarget, numTargets);
    return Success(Flatten(numbered)), items, drawn, groups, shuffled, blocks;
  }

  /**
   * How the target loop ends: it cannot fail without targets, always fails
   * on its first target when b·t is 0, and cannot fail when every pool item
   * has options and b·t > 0.
   */
  lemma LoopOutcome(targets: seq<Stimulus>, pool: seq<Stimulus>, cond: Condition,
                    numBlocksPerTarget: nat, numTrialsPerBlock: nat)
    requires forall x :: x in targets ==> x in pool
    ensures targets == [] ==> FirstTargetError(targets, pool, cond, numBlocksPerTarget, numTrialsPerBlock).None?
    ensures targets != [] && numBlocksPerTarget * numTrialsPerBlock == 0 ==>
      FirstTargetError(targets, pool, cond, numBlocksPerTarget, numTrialsPerBlock).Some?
    ensures numBlocksPerTarget * numTrialsPerBlock > 0 && EveryTargetHasOptions(pool, cond) ==>
      FirstTargetError(targets, pool, cond, numBlocksPerTarget, numTrialsPerBlock).None?
  {
    FirstTargetErrorNone(targets, pool, cond, numBlocksPerTarget, numTrialsPerBlock);
    if targets != [] {
      assert targets[0] in targets;
    }
  }

  /**
   * The flat list as consecutive blocks of `len` records: record `p` carries
   * block number `p / len` and trial number `p % len`, is a target record
   * exactly at trial number 0, and otherwise points at the target record
   * heading its block.
   */
  predicate LaidOut(r: seq<Trial>, len: nat)
  {
    len > 0 &&
    forall p :: 0 <= p < |r| ==> PositionLaidOut(r, len, p)
  }

  predicate PositionLaidOut(r: seq<Trial>, len: nat, p: nat)
    requires len > 0 && p < |r|
  {
    r[p].blockNum == Some(p / len) && r[p].trialNum == Some(p % len) &&
    (r[p].role == Target <==> p % len == 0) &&
    (p % len != 0 ==> r[p].target == Some(r[p - p % len].stim.fname))
  }

  /** Numbered blocks, flattened, are laid out block after block. */
  lemma FlatLayout(bs: seq<seq<Trial>>, numTrialsPerBlock: nat, items: seq<Stimulus>, cond: Condition)
    requires forall k :: 0 <= k < |bs| ==> IsNumberedBlock(bs[k], k, numTrialsPerBlock, items, cond)
    ensures |Flatten(bs)| == |bs| * (numTrialsPerBlock + 1)
    ensures LaidOut(Flatten(bs), numTrialsPerBlock + 1)
  {
    var len := numTrialsPerBlock + 1;
    FlattenLength(bs, len);
    forall p | 0 <= p < |Flatten(bs)|
      ensures PositionLaidOut(Flatten(bs), len, p)
    {
      FlatIndex(bs, numTrialsPerBlock, items, cond, p);
    }
  }

  lemma FlatIndex(bs: seq<seq<Trial>>, numTrialsPerBlock: nat, items: seq<Stimulus>, cond: Condition, p: nat)
    requires forall k :: 0 <= k < |bs| ==> IsNumberedBlock(bs[k], k, numTrialsPerBlock, items, cond)
    requires p < |bs| * (numTrialsPerBlock + 1)
    ensures p < |Flatten(bs)| && PositionLaidOut(Flatten(bs), numTrialsPerBlock + 1, p)
  {
    var len := numTrialsPerBlock + 1;
    var k, j := p / len, p % len;
    QuotientBound(p, len, |bs|);
    assert p == k * len + j;
    FlatPosition(bs, numTrialsPerBlock, items, cond, k, j);
  }

  /** Record `j` of block `k`, seen in the flat list. */
  lemma FlatPosition(bs: seq<seq<Trial>>, numTrialsPerBlock: nat, items: seq<Stimulus>, cond: Condition,
                     k: nat, j: nat)
    requires forall k :: 0 <= k < |bs| ==> IsNumberedBlock(bs[k], k, numTrialsPerBlock, items, cond)
    requires k < |bs| && j < numTrialsPerBlock + 1
    ensures k * (numTrialsPerBlock + 1) + j < |Flatten(bs)|
    ensures var r := Flatten(bs)[k * (numTrialsPerBlock + 1) + j];
      r.blockNum == Some(k) && r.trialNum == Some(j) && (r.role == Target <==> j == 0) &&
      (j != 0 ==> r.target == Some(Flatten(bs)[k * (numTrialsPerBlock + 1)].stim.fname))
  {
    var len := numTrialsPerBlock + 1;
    FlattenAt(bs, len, k, j);
    FlattenAt(bs, len, k, 0);
    assert IsNumberedBlock(bs[k], k, numTrialsPerBlock, items, cond);
  }

  /** A position inside `n` blocks of length `len` lies in one of them. */
  lemma QuotientBound(p: nat, len: nat, n: nat)
    requires len > 0 && p < n * len
    ensures p / len < n
  {
    if p / len >= n {
      MulMonotone(n, p / len, len);
    }
  }

  lemma MulMonotone(a: nat, b: nat, c: nat)
    requires a <= b
    ensures a * c <= b * c
  {
  }

  /**
   * `numTargets` shares hold `numTargets` times each count: the target
   * records of every block, and each trial type's quota.
   */
  lemma RepeatedTally(q: Quota, numBlocksPerTarget: nat, numTargets: nat)
    ensures Repeat(MegablockTally(q, numBlocksPerTarget), numTargets)[Target] == numTargets * numBlocksPerTarget
    ensures Repeat(MegablockTally(q, numBlocksPerTarget), numTargets)[ExactMatch] == numTargets * q.exactMatch
    ensures Repeat(MegablockTally(q, numBlocksPerTarget), numTargets)[ShapeLure] == numTargets * q.shapeLure
    ensures Repeat(MegablockTally(q, numBlocksPerTarget), numTargets)[TextureLure] == numTargets * q.textureLure
    ensures Repeat(MegablockTally(q, numBlocksPerTarget), numTargets)[Filler] == numTargets * q.filler
  {
    var m := MegablockTally(q, numBlocksPerTarget);
    MegablockTallyCounts(q, numBlocksPerTarget);
    RepeatCount(m, numTargets, Target);
    RepeatCount(m, numTargets, ExactMatch);
    RepeatCount(m, numTargets, ShapeLure);
    RepeatCount(m, numTargets, TextureLure);
    RepeatCount(m, numTargets, Filler);
  }

  /**
   * The composition the source's test expects of 25 targets with 2 blocks of
   * 50 trials each: 50 target records, 1250 exact matches, 400 lures of each
   * kind and 450 fillers.
   */
  lemma TwentyFiveTargetsTwoBlocksOfFifty()
    ensures var tally := Repeat(MegablockTally(Quota(50, 16, 16, 18), 2), 25);
      tally[Target] == 50 && tally[ExactMatch] == 1250 && tally[ShapeLure] == 400 &&
      tally[TextureLure] == 400 && tally[Filler] == 450
  {
    var q := Quota(50, 16, 16, 18);
    RepeatedTally(q, 2, 25);
  }

  /**
   * `_.shuffle(blocks)` followed by the numbering loops, run on an array
   * holding the shuffled blocks.
   */
  method ShuffleAndNumber(allBlocks: seq<seq<Trial>>, numTrialsPerBlock: nat, ghost items: seq<Stimulus>,
                          ghost cond: Condition)
    returns (numbered: seq<seq<Trial>>, ghost shuffled: seq<seq<Trial>>)
    requires forall b :: b in allBlocks ==> IsBlock(b, numTrialsPerBlock, items, cond)
    ensures multiset(shuffled) == multiset(allBlocks) && numbered == Numbered(shuffled)
    ensures |numbered| == |allBlocks|
    ensures forall k :: 0 <= k < |numbered| ==> IsNumberedBlock(numbered[k], k, numTrialsPerBlock, items, cond)
    ensures RoleCounts(Flatten(numbered)) == RoleCounts(Flatten(allBlocks))
  {
    var shuffledList := Sampling.Shuffle(allBlocks);
    var shuffledBlocks := new seq<Trial>[|shuffledList|](k requires 0 <= k < |shuffledList| => shuffledList[k]);
    assert shuffledBlocks[..] == shuffledList;
    NumberBlocks(shuffledBlocks);
    numbered := shuffledBlocks[..];
    shuffled := shuffledList;
    GeneratedBlocks(allBlocks, shuffledList, numbered, numTrialsPerBlock, items, cond);
  }

  /**
   * One pass of the `while (i < numTargets)` loop: the target's megablock,
   * split into its blocks.
   */
  method TargetBlocks(target: Stimulus, pool: seq<Stimulus>, quota: Quota,
                      numBlocksPerTarget: nat, numTrialsPerBlock: nat, cond: Condition)
    returns (r: Result<seq<seq<Trial>>>)
    requires target in pool
    requires Total(quota) == numBlocksPerTarget * numTrialsPerBlock
    ensures r.Failure? <==> TargetError(target, pool, cond, numBlocksPerTarget, numTrialsPerBlock).Some?
    ensures r.Failure? ==> r.error == TargetError(target, pool, cond, numBlocksPerTarget, numTrialsPerBlock).value
    ensures r.Success? ==> IsTargetGroup(r.value, target, quota, numBlocksPerTarget, numTrialsPerBlock, pool, cond)
  {
    var mbResult := Megablock(target, pool, quota.exactMatch, quota.shapeLure, quota.textureLure,
                              quota.filler, cond);
    if mbResult.Failure? {
      return Failure(mbResult.error);
    }
    var mb := mbResult.value;
    SplitFits(|mb.0|, numBlocksPerTarget, numTrialsPerBlock);
    var split :- SplitMegablockIntoBlocks(mb.0, mb.1, numBlocksPerTarget);
    SplitBlocks(mb.0, target, split, quota, numBlocksPerTarget, numTrialsPerBlock, pool, cond);
    return Success(split);
  }

  /** A megablock of b·t trials cuts into b blocks of t trials each. */
  lemma SplitFits(len: nat, numBlocksPerTarget: nat, numTrialsPerBlock: nat)
    requires len == numBlocksPerTarget * numTrialsPerBlock
    ensures len > 0 ==> numBlocksPerTarget > 0 && len % numBlocksPerTarget == 0
    ensures numBlocksPerTarget > 0 ==> len / numBlocksPerTarget == numTrialsPerBlock
  {
    if numBlocksPerTarget > 0 {
      ProductDivision(numBlocksPerTarget, numTrialsPerBlock);
    }
  }

  /**
   * The `while (i < numTargets)` loop: each target's blocks, appended in
   * target order.
   */
  method BuildBlocks(targets: seq<Stimulus>, pool: seq<Stimulus>, quota: Quota,
                     numBlocksPerTarget: nat, numTrialsPerBlock: nat, cond: Condition)
    returns (r: Result<seq<seq<Trial>>>, ghost groups: seq<seq<seq<Trial>>>)
    requires forall x :: x in targets ==> x in pool
    requires Total(quota) == numBlocksPerTarget * numTrialsPerBlock
    ensures r.Failure? <==> FirstTargetError(targets, pool, cond, numBlocksPerTarget, numTrialsPerBlock).Some?
    ensures r.Failure? ==> r.error == FirstTargetError(targets, pool, cond, numBlocksPerTarget, numTrialsPerBlock).value
    ensures r.Success? ==> |r.value| == |targets| * numBlocksPerTarget
    ensures r.Success? ==> forall b :: b in r.value ==> IsBlock(b, numTrialsPerBlock, pool, cond)
    ensures r.Success? ==> RoleCounts(Flatten(r.value)) == Repeat(MegablockTally(quota, numBlocksPerTarget), |targets|)
    // Grouped by pass: group i holds the blocks of targets[i], in target order.
    ensures r.Success? ==> |groups| == |targets| && r.value == Flatten(groups)
    ensures r.Success? ==> forall i :: 0 <= i < |targets| ==>
      IsTargetGroup(groups[i], targets[i], quota, numBlocksPerTarget, numTrialsPerBlock, pool, cond)
  {
    var blocks: seq<seq<Trial>> := [];
    groups := [];
    var i := 0;
    while i < |targets|
      invariant 0 <= i <= |targets|
      invariant |groups| == i && blocks == Flatten(groups)
      invariant forall k :: 0 <= k < i ==>
        IsTargetGroup(groups[k], targets[k], quota, numBlocksPerTarget, numTrialsPerBlock, pool, cond)
      invariant FirstTargetError(targets, pool, cond, numBlocksPerTarget, numTrialsPerBlock) ==
        FirstTargetError(targets[i..], pool, cond, numBlocksPerTarget, numTrialsPerBlock)
    {
      assert targets[i] in pool;
      FirstTargetErrorFrom(targets, i, pool, cond, numBlocksPerTarget, numTrialsPerBlock);
      var result := TargetBlocks(targets[i], pool, quota, numBlocksPerTarget, numTrialsPerBlock, cond);
      if result.Failure? {
        return Failure(result.error), groups;
      }
      var split := result.value;
      FlattenAppend(groups, split);
      AppendGroup(groups, split, targets, quota, numBlocksPerTarget, numTrialsPerBlock, pool, cond);
      blocks := blocks + split;
      groups := groups + [split];
      i := i + 1;
    }
    assert targets[i..] == [];
    GroupedBlocks(groups, targets, quota, numBlocksPerTarget, numTrialsPerBlock, pool, cond);
    TimesIsProduct(|targets|, numBlocksPerTarget);
    return Success(blocks), groups;
  }

  /**
   * Groups built target by target, taken together: `Times(n, b)` generated
   * blocks tallying to `n` shares, for `n` targets.
   */
  lemma {:induction false} GroupedBlocks(groups: seq<seq<seq<Trial>>>, targets: seq<Stimulus>, q: Quota,
                                         numBlocksPerTarget: nat, numTrialsPerBlock: nat, items: seq<Stimulus>,
                                         cond: Condition)
    requires |groups| == |targets|
    requires forall x :: x in targets ==> x in items
    requires forall k :: 0 <= k < |groups| ==>
      IsTargetGroup(groups[k], targets[k], q, numBlocksPerTarget, numTrialsPerBlock, items, cond)
    ensures |Flatten(groups)| == Times(|groups|, numBlocksPerTarget)
    ensures forall b :: b in Flatten(groups) ==> IsBlock(b, numTrialsPerBlock, items, cond)
    ensures RoleCounts(Flatten(Flatten(groups))) == Repeat(MegablockTally(q, numBlocksPerTarget), |groups|)
    decreases |groups|
  {
    var n := |groups|;
    if n > 0 {
      var init, last := groups[..n - 1], groups[n - 1];
      InitLast(groups);
      assert IsTargetGroup(last, targets[n - 1], q, numBlocksPerTarget, numTrialsPerBlock, items, cond);
      assert targets[n - 1] in targets;
      GroupedBlocks(init, targets[..n - 1], q, numBlocksPerTarget, numTrialsPerBlock, items, cond);
      GroupedStep(init, last, targets[n - 1], q, numBlocksPerTarget, numTrialsPerBlock, items, cond);
    }
  }

  /** One more target's group on top of the groups before it. */
  lemma GroupedStep(init: seq<seq<seq<Trial>>>, last: seq<seq<Trial>>, target: Stimulus, q: Quota,
                    numBlocksPerTarget: nat, numTrialsPerBlock: nat, items: seq<Stimulus>, cond: Condition)
    requires target in items
    requires IsTargetGroup(last, target, q, numBlocksPerTarget, numTrialsPerBlock, items, cond)
    requires |Flatten(init)| == Times(|init|, numBlocksPerTarget)
    requires forall b :: b in Flatten(init) ==> IsBlock(b, numTrialsPerBlock, items, cond)
    requires RoleCounts(Flatten(Flatten(init))) == Repeat(MegablockTally(q, numBlocksPerTarget), |init|)
    ensures |Flatten(init + [last])| == Times(|init| + 1, numBlocksPerTarget)
    ensures forall b :: b in Flatten(init + [last]) ==> IsBlock(b, numTrialsPerBlock, items, cond)
    ensures RoleCounts(Flatten(Flatten(init + [last]))) ==
      Repeat(MegablockTally(q, numBlocksPerTarget), |init| + 1)
  {
    FlattenAppend(init, last);
    TargetGroupBlocks(last, target, q, numBlocksPerTarget, numTrialsPerBlock, items, cond);
    AppendBlocks(Flatten(init), last, MegablockTally(q, numBlocksPerTarget), numBlocksPerTarget,
                 numTrialsPerBlock, items, cond, |init|);
  }

  /** The groups built so far, plus the current target's, are grouped by target. */
  lemma AppendGroup(groups: seq<seq<seq<Trial>>>, split: seq<seq<Trial>>, targets: seq<Stimulus>, q: Quota,
                    numBlocksPerTarget: nat, numTrialsPerBlock: nat, items: seq<Stimulus>, cond: Condition)
    requires |groups| < |targets|
    requires forall k :: 0 <= k < |groups| ==>
      IsTargetGroup(groups[k], targets[k], q, numBlocksPerTarget, numTrialsPerBlock, items, cond)
    requires IsTargetGroup(split, targets[|groups|], q, numBlocksPerTarget, numTrialsPerBlock, items, cond)
    ensures forall k :: 0 <= k < |groups| + 1 ==>
      IsTargetGroup((groups + [split])[k], targets[k], q, numBlocksPerTarget, numTrialsPerBlock, items, cond)
  {
  }

  /** Shuffling and numbering keep the blocks generated blocks and keep the tally. */
  lemma GeneratedBlocks(allBlocks: seq<seq<Trial>>, shuffled: seq<seq<Trial>>, numbered: seq<seq<Trial>>,
                        numTrialsPerBlock: nat, items: seq<Stimulus>, cond: Condition)
    requires forall b :: b in allBlocks ==> IsBlock(b, numTrialsPerBlock, items, cond)
    requires multiset(shuffled) == multiset(allBlocks)
    requires numbered == Numbered(shuffled)
    ensures forall k :: 0 <= k < |numbered| ==> IsNumberedBlock(numbered[k], k, numTrialsPerBlock, items, cond)
    ensures RoleCounts(Flatten(numbered)) == RoleCounts(Flatten(allBlocks))
  {
    forall k | 0 <= k < |numbered|
      ensures IsNumberedBlock(numbered[k], k, numTrialsPerBlock, items, cond)
    {
      assert shuffled[k] in multiset(allBlocks);
      NumberBlockIsNumbered(shuffled[k], k, numTrialsPerBlock, items, cond);
    }
    NumberedKeepsRoleCounts(shuffled);
    ShuffledBlocksKeepRoleCounts(shuffled, allBlocks);
  }
}
