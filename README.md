# Trial-specification generator and response scorer

A Dafny model of `generate_trial_specs.js`, the script behind a shape/texture
similarity experiment. The script does the following:

- It parses the stimulus file names (`<shape>_<texture>.<ext>`). Under the
  `gst` condition it also derives letters-only shape and texture classes.
- It draws the target items.
- It fixes how many exact-match, shape-lure, texture-lure and filler trials
  each target gets.
- It sorts the pool into lures and fillers relative to each target.
- It builds each target's megablock and cuts the megablock into equal blocks,
  each headed by a copy of the target.
- It shuffles the block order, stamps `block_num` and `trial_num` in place,
  and flattens the blocks into one trial list.
- It scores keypresses as signal-detection outcomes (`assessResponse`) and
  draws a mask image unrelated to the stimulus (`sampleNonmatchMask`).

Every `throw` of the source becomes a `Failure` carrying an `Error`
constructor. Each random draw (`_.shuffle`, `_.sample`) is a nondeterministic
choice, so every contract holds for every outcome of the draws. `deepCopy` is
the identity on Dafny's immutable values.

Modules, in dependency order:

- `Wrappers`: `Option`, `Result` and the error messages.
- `Stimuli`: the filename parser and `filterAlpha`.
- `Trials`: trial records, role tallies and flattening.
- `Sampling`: shuffle, the two samplers and the key mapping.
- `Quotas`: `trialTypesPerMegablock`.
- `Options`: `optionsByRole`.
- `Blocks`: `megablock` and `splitMegablockIntoBlocks`.
- `Generator`: `generateTrialSpecs`, with the in-place numbering on an array.
- `Responses`: `assessResponse`, with a `ResponseData` class for the record it
  updates.
- `Masks`: `sampleNonmatchMask`.

The code is followed where it is more specific than its description:

- **Zero blocks per target.** `splitMegablockIntoBlocks` with zero blocks
  fails with "Infeasible num blocks per target", because `len % 0` is `NaN`
  in the source.
- **Equal keys.** `assessResponse` tests the "same" key first. When both
  keys are equal, a keypress on a non-exact-match trial scores as a false
  positive.

## Model

In the source column, `experiment/js/generate_experiment_specs/generate_trial_specs.js` is the script and `experiment/js/generate_experiment_specs/__tests__/generate_trial_specs.spec.js` is its test file.

| member | source | states |
|---|---|---|
| Stimuli.Split | experiment/js/generate_experiment_specs/generate_trial_specs.js:14-20 | `String.split` on one character: the number of pieces is one more than the number of separators, no piece contains the separator, and joining the pieces with it gives back the string |
| Stimuli.SplitJoin | experiment/js/generate_experiment_specs/generate_trial_specs.js:14-20 | splitting a join of separator-free pieces gives back those pieces |
| Stimuli.FilterAlpha | experiment/js/generate_experiment_specs/generate_trial_specs.js:5-7 | the result holds only letters `[a-zA-Z]` and is no longer than the input |
| Stimuli.FilterAlphaFixesLetters | experiment/js/generate_experiment_specs/generate_trial_specs.js:5-7 | a string is left unchanged exactly when it is all letters |
| Stimuli.FilterAlphaConcat | experiment/js/generate_experiment_specs/generate_trial_specs.js:5-7 | filtering a concatenation filters each part |
| Stimuli.DigitSuffixDropped | experiment/js/generate_experiment_specs/generate_trial_specs.js:5-7 | a letter run followed by digits filters to the letter run (`bird5` to `bird`) |
| Stimuli.NonLettersFilterToEmpty | experiment/js/generate_experiment_specs/generate_trial_specs.js:5-7 | a string with no letter `[a-zA-Z]` (digits, `-`, `.`, spaces, any other character) filters to the empty string |
| Stimuli.NonLettersDropped | experiment/js/generate_experiment_specs/generate_trial_specs.js:5-7 | a run of non-letters anywhere in a string is dropped and the letters around it are kept, in order |
| Stimuli.ParseFilename | experiment/js/generate_experiment_specs/generate_trial_specs.js:13-33 | rejection carries "Malformed filename" and the name. An accepted name keeps its fname and splits as `shape_texture.ext`, with no `.` or `_` in shape or texture. The class fields are present under `gst` (the filtered parts) and absent under `baker` |
| Stimuli.MakeStimulus | experiment/js/generate_experiment_specs/generate_trial_specs.js:23-33 | the item keeps the fname, shape and texture. The class fields are present exactly under `gst`, and then hold only letters |
| Stimuli.ParseFailsIff | experiment/js/generate_experiment_specs/generate_trial_specs.js:14-20 | a name is rejected exactly when it has other than one dot, or the part before the dot has other than one underscore |
| Stimuli.ParseComposed | experiment/js/generate_experiment_specs/generate_trial_specs.js:12-33 | every well-formed `<shape>_<texture>.<ext>` parses back into exactly that shape and texture (round trip) |
| Stimuli.GstClassesDropDigits | experiment/js/generate_experiment_specs/__tests__/generate_trial_specs.spec.js:26-40 | under `gst`, `<letters><digits>_<letters><digits>.<ext>` gets the two letter runs as its classes |
| Stimuli.StimProperties | experiment/js/generate_experiment_specs/generate_trial_specs.js:10-37 | succeeds exactly when every name parses, with one item per name in the same order. Otherwise it fails with the error of the first malformed name |
| Sampling.Shuffle | experiment/js/generate_experiment_specs/generate_trial_specs.js:117 | `_.shuffle`: same length, same multiset of elements |
| Sampling.SampleWithReplacement | experiment/js/generate_experiment_specs/generate_trial_specs.js:121-129 | fails ("Empty arr") exactly on an empty array. Otherwise it returns `numSamples` elements, each a member of the array |
| Sampling.SampleWithoutReplacement | experiment/js/generate_experiment_specs/generate_trial_specs.js:112-118 | fails exactly on an empty array ("Empty arr", checked first) or when more samples are requested than the array holds ("Too many samples requested"). Otherwise it returns exactly `numSamples` elements whose multiset is contained in the array's |
| Sampling.SampleAllIsPermutation | experiment/js/generate_experiment_specs/generate_trial_specs.js:112-118 | drawing all of an array without replacement gives a permutation of it |
| Sampling.SampleKeyMapping | experiment/js/generate_experiment_specs/generate_trial_specs.js:46-54 | fails unless there are exactly two keys. Otherwise `{yes, no}` is the multiset of the two keys |
| Sampling.KeyMappingIsBijection | experiment/js/generate_experiment_specs/generate_trial_specs.js:46-54 | with two distinct keys the mapping is one of the two assignments, and yes differs from no |
| Quotas.TrialTypesPerMegablock | experiment/js/generate_experiment_specs/generate_trial_specs.js:132-145 | fails ("Infeasible trial parameters") exactly when b·t is odd. Otherwise the four counts sum to b·t, exact matches are half, the two lure counts are equal, and filler lies between the lure count and the lure count plus 2 |
| Quotas.QuotaIsUnique | experiment/js/generate_experiment_specs/generate_trial_specs.js:139-143 | any quota with those properties is the one computed, so the lure count is the floor of a third of the non-match half |
| Quotas.OneBlockOfFifty | experiment/js/generate_experiment_specs/__tests__/generate_trial_specs.spec.js:302-312 | (1, 50) gives (25, 8, 8, 9) |
| Quotas.TwoBlocksOfFifty | experiment/js/generate_experiment_specs/__tests__/generate_trial_specs.spec.js:314-324 | (2, 50) gives (50, 16, 16, 18) |
| Quotas.OneBlockOfTwentyFive | experiment/js/generate_experiment_specs/__tests__/generate_trial_specs.spec.js:326-332 | (1, 25) is rejected |
| Options.Candidates | experiment/js/generate_experiment_specs/generate_trial_specs.js:69-96 | every candidate for a role is a pool item tagged with that role and the target's fname, and the classification gives it that role |
| Options.RoleFor | experiment/js/generate_experiment_specs/generate_trial_specs.js:71-93 | the per-item classification: a role is never given to the target's own fname and is never target or exact match. Under `baker` every other item gets a role |
| Options.CandidatesComplete | experiment/js/generate_experiment_specs/generate_trial_specs.js:69-96 | every pool item the classification gives a role is among the candidates for that role |
| Options.SortByRole | experiment/js/generate_experiment_specs/generate_trial_specs.js:66-96 | the loop leaves the three lists equal to the candidate lists: every pool item with a role, tagged with it and with the target's fname, in pool order |
| Options.OptionsByRole | experiment/js/generate_experiment_specs/generate_trial_specs.js:65-109 | fails exactly when a list is empty, with "Empty shape lures", "Empty texture lures" or "Empty fillers" checked in that order. Every option returned is a correctly tagged pool item. Fillers are all the filler candidates. Under `baker` the lure lists are the full candidate lists. Under `gst` both lure lists have length min(\|shape lures\|, \|texture lures\|) and are sub-multisets of the candidates |
| Options.RoleMeaning | experiment/js/generate_experiment_specs/generate_trial_specs.js:71-93 | never the target's own fname. A shape lure has the target's shape. A texture lure has its texture but not its shape. A filler has neither, and under `gst` shares no class with it in either position. Each is an if-and-only-if |
| Options.BakerDropsOnlyTheTarget | experiment/js/generate_experiment_specs/generate_trial_specs.js:71-93 | under `baker` an item gets no role exactly when it carries the target's fname |
| Options.GstDropsClassOverlap | experiment/js/generate_experiment_specs/generate_trial_specs.js:80-89 | under `gst` a non-lure is dropped exactly when it shares a class with the target |
| Options.BakerPartition | experiment/js/generate_experiment_specs/generate_trial_specs.js:69-96 | under `baker` the three candidate lists together hold every pool item except those carrying the target's fname |
| Blocks.Megablock | experiment/js/generate_experiment_specs/generate_trial_specs.js:161-187 | fails exactly when `optionsByRole` does, with its error. The returned target record has role target and no target. The list length is the sum of the four counts. The role tally is exactly the requested counts, with no target roles. Every trial points at the target, and exact matches are copies of the target. Every other trial is a pool item that earns its role. No trial is numbered yet |
| Blocks.TargetRecord | experiment/js/generate_experiment_specs/generate_trial_specs.js:165-170 | the target record is a copy of the target with role target, a null target and no numbering |
| Blocks.ExactMatchRecord | experiment/js/generate_experiment_specs/generate_trial_specs.js:166-168 | an exact match is a copy of the target with role exactMatch, pointing at the target's fname, not numbered |
| Blocks.AssembledMegablock | experiment/js/generate_experiment_specs/generate_trial_specs.js:176-183 | the unshuffled concatenation of exact matches and the three draws has the requested tally, and every trial belongs to the target |
| Blocks.SplitMegablockIntoBlocks | experiment/js/generate_experiment_specs/generate_trial_specs.js:190-212 | fails exactly on an empty list ("allTrialsThisTarget is empty", first) or when the count does not divide the length ("Infeasible num blocks per target"). Otherwise it returns k blocks of length \|trials\|/k + 1, each headed by the target, whose tails concatenate to the input in order |
| Blocks.CutIntoBlocks | experiment/js/generate_experiment_specs/generate_trial_specs.js:201-211 | the loop over the start indices yields the given number of blocks of step + 1 records, each headed by the target, whose tails concatenate back to the trials in order |
| Blocks.ExactDivision | experiment/js/generate_experiment_specs/generate_trial_specs.js:201-202 | the block start indices `0, step, …` end exactly at the list's length |
| Generator.NumberBlocks | experiment/js/generate_experiment_specs/generate_trial_specs.js:263-268 | the nested loops leave the array equal to the shuffled blocks with record j of block i stamped `block_num = i`, `trial_num = j` |
| Generator.Stamp | experiment/js/generate_experiment_specs/generate_trial_specs.js:265-266 | stamping sets `block_num` and `trial_num` and leaves the stimulus, role and target as they were |
| Generator.NumberBlock | experiment/js/generate_experiment_specs/generate_trial_specs.js:264-267 | the inner loop: a block keeps its length, and record j carries block k and trial j with its other fields unchanged |
| Generator.Numbered | experiment/js/generate_experiment_specs/generate_trial_specs.js:263-268 | both loops on values: one numbered block per block, in the same order. NumberBlocks is proved to leave the array equal to it |
| Generator.NumberedKeepsRoleCounts | experiment/js/generate_experiment_specs/generate_trial_specs.js:263-268 | numbering does not change the tally of roles |
| Generator.NumberBlockIsNumbered | experiment/js/generate_experiment_specs/generate_trial_specs.js:263-268 | a stamped block keeps its shape (target head, trials of that target) and carries its block number and dense trial numbers |
| Generator.HeadsAndTails | experiment/js/generate_experiment_specs/generate_trial_specs.js:205-209 | the blocks of one target tally to one target record per block plus the megablock |
| Generator.SplitBlocks | experiment/js/generate_experiment_specs/generate_trial_specs.js:253-254 | the blocks split from a target's megablock are b blocks of that target's: each is that target's record followed by t trials pointing at it, and together they tally to that target's share |
| Generator.TargetBlocks | experiment/js/generate_experiment_specs/generate_trial_specs.js:249-254 | one loop pass fails exactly when the target's options are empty or b·t is 0. The error is the options error, or else "allTrialsThisTarget is empty": with b·t > 0 the split cannot fail. On success it yields b blocks, each headed by this target's record and filled with trials of this target, tallying to its share of roles |
| Generator.BuildBlocks | experiment/js/generate_experiment_specs/generate_trial_specs.js:244-258 | the target loop fails exactly when some target's pass fails, with the error of the first such target in loop order. Otherwise it yields \|targets\|·b well-formed blocks tallying to \|targets\| shares, and they are the concatenation, in loop order, of one group per target: group i is b blocks of targets[i]'s own with targets[i]'s share |
| Generator.GroupedBlocks | experiment/js/generate_experiment_specs/generate_trial_specs.js:244-258 | groups built target by target concatenate to \|targets\|·b well-formed blocks tallying to \|targets\| shares |
| Generator.TargetGroupBlocks | experiment/js/generate_experiment_specs/generate_trial_specs.js:201-210 | a block of a pool item's own is a well-formed block |
| Generator.TargetShare | experiment/js/generate_experiment_specs/generate_trial_specs.js:219-224 | the blocks of one drawn target hold b target records, exact matches for half of its b·t trials, as many shape lures as texture lures, and fillers at most two above the lures |
| Generator.MegablockTallyCounts | experiment/js/generate_experiment_specs/generate_trial_specs.js:177-183 | a target's share holds b target records and each trial type's quota |
| Generator.TargetError | experiment/js/generate_experiment_specs/generate_trial_specs.js:192-198 | the error of one pass is always an options error or the empty-megablock error |
| Generator.FirstTargetErrorNone | experiment/js/generate_experiment_specs/generate_trial_specs.js:244-258 | the loop gets through all targets exactly when no target's pass fails |
| Generator.LoopOutcome | experiment/js/generate_experiment_specs/generate_trial_specs.js:244-258 | no targets: the loop cannot fail. Some target and b·t = 0: it fails. b·t > 0 and every pool item has options: it cannot fail |
| Generator.ShuffleAndNumber | experiment/js/generate_experiment_specs/generate_trial_specs.js:260-268 | the result is the numbering of a reordering of the input blocks (the same multiset of blocks). Block k is a well-formed block stamped k. The number of blocks and the role tally are unchanged |
| Generator.GeneratedBlocks | experiment/js/generate_experiment_specs/generate_trial_specs.js:260-268 | shuffling whole blocks and numbering them keeps every block well formed and keeps the tally |
| Generator.FlatLayout | experiment/js/generate_experiment_specs/generate_trial_specs.js:263-271 | in the flat list, record p has `block_num = p/(t+1)` and `trial_num = p mod (t+1)`. It is a target record exactly at trial number 0, and otherwise points at its block's head |
| Generator.RepeatedTally | experiment/js/generate_experiment_specs/generate_trial_specs.js:244-258 | n targets' shares hold n·b target records and n times each quota |
| Generator.TwentyFiveTargetsTwoBlocksOfFifty | experiment/js/generate_experiment_specs/__tests__/generate_trial_specs.spec.js:411-439 | the test's expected composition: 50 target records, 1250 exact matches, 400 of each lure kind and 450 fillers |
| Generator.GenerateTrialSpecs | experiment/js/generate_experiment_specs/generate_trial_specs.js:231-274 | (details below this table) |
| Responses.Assess | experiment/js/generate_experiment_specs/generate_trial_specs.js:277-317 | fails exactly when a key or the role is missing, with "yesKey is undefined", "noKey is undefined" and "Missing role" checked in that order. `correct` is true exactly for truePositive and trueNegative |
| Responses.Classify | experiment/js/generate_experiment_specs/generate_trial_specs.js:291-309 | the outcome is noResponse exactly for a missing response, and noResponse or wrongKey exactly when the response is neither key. Hits and misses arise only on exact matches; false alarms and correct rejections arise only on other roles |
| Responses.IsCorrect | experiment/js/generate_experiment_specs/generate_trial_specs.js:310-314 | `correct` holds exactly for truePositive and trueNegative (CorrectIff gives what that means in keys and roles) |
| Responses.AssessResponse | experiment/js/generate_experiment_specs/generate_trial_specs.js:277-317 | on success it writes the outcome and `correct` into the record and returns the same record. On an error the record is untouched. It never changes role or response |
| Responses.CorrectIff | experiment/js/generate_experiment_specs/generate_trial_specs.js:291-315 | scored correct exactly for "same" on an exact match, or for the "different" key (distinct from "same") on any other role |
| Responses.InvalidResponses | experiment/js/generate_experiment_specs/generate_trial_specs.js:291-296 | a missing response is noResponse, any other non-mapped key is wrongKey, and neither is correct |
| Responses.KeySwap | experiment/js/generate_experiment_specs/__tests__/generate_trial_specs.spec.js:443-501 | exchanging the two keys in the mapping and in the response leaves the outcome unchanged |
| Responses.CodingTable | experiment/js/generate_experiment_specs/__tests__/generate_trial_specs.spec.js:443-501 | the 16-case table of outcomes and `correct` flags |
| Responses.ErrorTable | experiment/js/generate_experiment_specs/__tests__/generate_trial_specs.spec.js:503-518 | the error cases of the test, and key errors taking precedence over the role error |
| Masks.ValidMasks | experiment/js/generate_experiment_specs/generate_trial_specs.js:324-331 | a name is a possible draw exactly when it is in the list and contains neither the shape nor the texture |
| Masks.Contains | experiment/js/generate_experiment_specs/generate_trial_specs.js:328 | `String.prototype.includes`: a string can contain only substrings no longer than itself. ContainsIff is its full characterisation |
| Masks.ContainsIff | experiment/js/generate_experiment_specs/generate_trial_specs.js:328 | `Contains`, the model of `String.prototype.includes`, holds exactly when some window of the string equals the substring (the empty string occurs everywhere) |
| Masks.SampleNonmatchMask | experiment/js/generate_experiment_specs/generate_trial_specs.js:324-331 | when some valid mask exists, the result is in the list and contains neither substring |
| Masks.EmptyPartRulesOutEveryMask | experiment/js/generate_experiment_specs/generate_trial_specs.js:324-331 | an empty shape or texture makes every mask invalid, since every string includes `""` |
| Masks.StimulusOwnNameIsInvalid | experiment/js/generate_experiment_specs/generate_trial_specs.js:324-331 | a mask named `<shape>_<texture>.<ext>` after the stimulus itself is never valid |
| Trials.RoleCountsPermutation | experiment/js/generate_experiment_specs/generate_trial_specs.js:185 | reordering trials (`_.shuffle`) keeps the role tally |
| Trials.FlattenPermutation | experiment/js/generate_experiment_specs/generate_trial_specs.js:260 | reordering blocks keeps the multiset of flattened trials |
| Trials.FlattenAt | experiment/js/generate_experiment_specs/generate_trial_specs.js:271 | with blocks of equal length len, element i·len + j of `flat()` is record j of block i |
| Trials.Flatten | experiment/js/generate_experiment_specs/generate_trial_specs.js:271 | `Array.prototype.flat` at depth one, with no contract of its own; FlattenMembers, FlattenConcat, FlattenAt and FlattenPermutation state what it computes |
| Trials.FlattenMembers | experiment/js/generate_experiment_specs/generate_trial_specs.js:271 | `flat()` holds exactly the elements of the blocks |
| Trials.FlattenConcat | experiment/js/generate_experiment_specs/generate_trial_specs.js:271 | `flat()` of a concatenation of block lists is the concatenation of their `flat()`s |

`Generator.GenerateTrialSpecs` states the following.

Errors, in the source's order of checks:

- A malformed name gives "Malformed filename", and only a malformed name does. The name in the error is the first malformed one.
- With every name parsed, an empty pool gives "Empty arr".
- Otherwise an odd b·t gives "Infeasible trial parameters".
- Otherwise the target loop decides. Exactly numTargets pool items are drawn. The run fails exactly when some drawn target's pass fails, with the error of the first such target.
- In particular, numTargets = 0 succeeds with the empty list. numTargets > 0 with b·t = 0 fails. The run succeeds whenever b·t is even and positive and every pool item has all three option lists non-empty.

On success:

- The ghost `groups` holds, per drawn target in draw order, the b blocks its pass built. Each such block is that target's own record followed by t trials pointing at it. Each group tallies to the target's share: b target records, half of its b·t trials exact matches, and the lures and fillers of the quota (TargetShare).
- The ghost `shuffled` holds exactly the blocks of all groups, reordered (equal multisets). The output blocks are `shuffled`, numbered.
- The result is the flattening of n·b blocks. Block k is a target record of a pool item, followed by t trials of that target, all stamped `block_num = k` and `trial_num = 0..t`.
- The length is n·b·(t+1).
- n·b trials have role target, and each other role occurs n times its quota.
- `block_num` and `trial_num` are dense in output order.

## Left out

- `experiment/js/create_trials.js` is not part of this model: it assembles jsPsych trial objects, HTML prompts and `alert` feedback over a library that is not modelled.
- Uniformity of `_.shuffle` and `_.sample` is not modelled. Each draw is a nondeterministic choice, so contracts state lengths, membership and multisets only.
- `deepCopy` (`_.cloneDeep`) is the identity. Trial records are immutable values, so copy independence holds by construction and aliasing is not modelled.
- Masks.SampleNonmatchMask: the draw-until-valid loop is modelled as one choice among the valid masks, under the requirement that one exists. Two source behaviours fall outside that requirement and are not modelled. With an empty list, `_.sample` gives `undefined` and the `includes` call throws a TypeError. With a non-empty list that has no valid mask, the loop never ends.
- Stimuli.StimProperties: a condition other than `baker` or `gst` is not modelled. The source then pushes `undefined` items. `Condition` has only the two tags.
- Generator.GenerateTrialSpecs: the counts are natural numbers. Negative, fractional or non-numeric JavaScript arguments are not modelled.
- Sampling.SampleWithoutReplacement: only the slice of a shuffle is modelled. Which elements come first is left open.
- Responses.AssessResponse: keys and responses are strings compared with `==`. JavaScript's loose equality between a number key and a string response is not modelled.
