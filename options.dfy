/**
 * `optionsByRole`: sorts the candidate pool into shape lures, texture lures
 * and fillers relative to one target.
 */
module Options {
  import opened Wrappers
  import opened Stimuli
  import opened Trials
  import Sampling

  /**
   * Under `gst` a filler may share no class with the target, in either
   * position: neither of its classes equals either of the target's classes.
   */
  predicate ClassDisjoint(target: Stimulus, item: Stimulus)
  {
    item.shapeClass != target.shapeClass &&
    item.textureClass != target.textureClass &&
    item.shapeClass != target.textureClass &&
    item.textureClass != target.shapeClass
  }

  /**
   * The role one loop iteration gives `item`, or `None` when the item is
   * skipped: it is the target itself (same fname), or a `gst` non-lure that
   * shares a class with the target.
   */
  function RoleFor(target: Stimulus, item: Stimulus, cond: Condition): (r: Option<Role>)
    ensures r.Some? ==> item.fname != target.fname && r.value != Target && r.value != ExactMatch
    ensures item.fname != target.fname && cond == Baker ==> r.Some?
  {
    if item.fname == target.fname then None
    else if item.shape == target.shape then Some(ShapeLure)
    else if item.texture == target.texture then Some(TextureLure)
    else
      match cond
      case Gst => if ClassDisjoint(target, item) then Some(Filler) else None
      case Baker => Some(Filler)
  }

  /**
   * The items that receive `role`, in pool order, each tagged with the role
   * and with the target's fname.
   */
  function Candidates(target: Stimulus, items: seq<Stimulus>, cond: Condition, role: Role): (r: seq<Trial>)
    ensures |r| <= |items|
    ensures forall t :: t in r ==> t.stim in items && t == Tag(t.stim, role, Some(target.fname))
    ensures forall t :: t in r ==> RoleFor(target, t.stim, cond) == Some(role)
  {
    if items == [] then []
    else
      var rest := Candidates(target, items[..|items| - 1], cond, role);
      var item := items[|items| - 1];
      assert forall s :: s in items[..|items| - 1] ==> s in items;
      if RoleFor(target, item, cond) == Some(role) then rest + [Tag(item, role, Some(target.fname))]
      else rest
  }

  /** One more loop iteration appends at most the next item to each list. */
  lemma CandidatesStep(target: Stimulus, items: seq<Stimulus>, cond: Condition, i: nat)
    requires i < |items|
    ensures forall role ::
      Candidates(target, items[..i + 1], cond, role) ==
        Candidates(target, items[..i], cond, role) +
        (if RoleFor(target, items[i], cond) == Some(role) then [Tag(items[i], role, Some(target.fname))] else [])
  {
    assert items[..i + 1][..i] == items[..i];
  }

  /** Every item of the pool that earns `role` is among the candidates for it. */
  lemma {:induction false} CandidatesComplete(target: Stimulus, items: seq<Stimulus>, cond: Condition, role: Role, i: nat)
    requires i < |items| && RoleFor(target, items[i], cond) == Some(role)
    ensures Tag(items[i], role, Some(target.fname)) in Candidates(target, items, cond, role)
    decreases |items|
  {
    if i < |items| - 1 {
      CandidatesComplete(target, items[..|items| - 1], cond, role, i);
    }
  }

  /** The three option lists `optionsByRole` returns: shape lures, texture lures, fillers. */
  datatype RoleLists = RoleLists(shapeLures: seq<Trial>, textureLures: seq<Trial>, fillers: seq<Trial>)

  /** The error `optionsByRole` throws, checked in the source's order. */
  function OptionsError(target: Stimulus, items: seq<Stimulus>, cond: Condition): Option<Error>
  {
    if Candidates(target, items, cond, ShapeLure) == [] then Some(EmptyShapeLures)
    else if Candidates(target, items, cond, TextureLure) == [] then Some(EmptyTextureLures)
    else if Candidates(target, items, cond, Filler) == [] then Some(EmptyFillers)
    else None
  }

  /**
   * What every returned option satisfies: it is a tagged copy of a pool item
   * that earns the role of the list it is in.
   */
  predicate IsOption(target: Stimulus, items: seq<Stimulus>, cond: Condition, role: Role, t: Trial)
  {
    t.stim in items && t == Tag(t.stim, role, Some(target.fname)) &&
    RoleFor(target, t.stim, cond) == Some(role)
  }

  predicate ValidOptions(target: Stimulus, items: seq<Stimulus>, cond: Condition, o: RoleLists)
  {
    o.shapeLures != [] && o.textureLures != [] && o.fillers != [] &&
    (forall t :: t in o.shapeLures ==> IsOption(target, items, cond, ShapeLure, t)) &&
    (forall t :: t in o.textureLures ==> IsOption(target, items, cond, TextureLure, t)) &&
    (forall t :: t in o.fillers ==> IsOption(target, items, cond, Filler, t))
  }

  /**
   * `optionsByRole`. Fails when a list comes out empty. Under `baker` the
   * three lists are returned whole; under `gst` both lure lists are cut down
   * (by a random sample) to the length of the shorter one.
   */
  method OptionsByRole(target: Stimulus, items: seq<Stimulus>, cond: Condition) returns (r: Result<RoleLists>)
    ensures r.Failure? <==> OptionsError(target, items, cond).Some?
    ensures r.Failure? ==> r.error == OptionsError(target, items, cond).value
    ensures r.Success? ==> ValidOptions(target, items, cond, r.value)
    ensures r.Success? ==> r.value.fillers == Candidates(target, items, cond, Filler)
    ensures r.Success? && cond == Baker ==>
      r.value.shapeLures == Candidates(target, items, cond, ShapeLure) &&
      r.value.textureLures == Candidates(target, items, cond, TextureLure)
    ensures r.Success? && cond == Gst ==>
      var shapes, textures := Candidates(target, items, cond, ShapeLure), Candidates(target, items, cond, TextureLure);
      var numLures := if |shapes| < |textures| then |shapes| else |textures|;
      |r.value.shapeLures| == numLures && |r.value.textureLures| == numLures &&
      multiset(r.value.shapeLures) <= multiset(shapes) &&
      multiset(r.value.textureLures) <= multiset(textures)
  {
    var shapeLures, textureLures, fillers := SortByRole(target, items, cond);

    if shapeLures == [] { return Failure(EmptyShapeLures); }
    if textureLures == [] { return Failure(EmptyTextureLures); }
    if fillers == [] { return Failure(EmptyFillers); }

    match cond {
      case Gst =>
        var numLures := if |shapeLures| < |textureLures| then |shapeLures| else |textureLures|;
        // Neither sample can fail: both lists are non-empty and numLures fits.
        var shapeSample := Sampling.SampleWithoutReplacement(shapeLures, numLures);
        var textureSample := Sampling.SampleWithoutReplacement(textureLures, numLures);
        assert shapeSample.Success? && textureSample.Success?;
        forall t | t in shapeSample.value ensures t in shapeLures {
          assert t in multiset(shapeSample.value);
        }
        forall t | t in textureSample.value ensures t in textureLures {
          assert t in multiset(textureSample.value);
        }
        r := Success(RoleLists(shapeSample.value, textureSample.value, fillers));
      case Baker =>
        r := Success(RoleLists(shapeLures, textureLures, fillers));
    }
  }

  /** The loop of `optionsByRole`: one pass over the pool, tagging each item with its role. */
  method SortByRole(target: Stimulus, items: seq<Stimulus>, cond: Condition)
    returns (shapeLures: seq<Trial>, textureLures: seq<Trial>, fillers: seq<Trial>)
    ensures shapeLures == Candidates(target, items, cond, ShapeLure)
    ensures textureLures == Candidates(target, items, cond, TextureLure)
    ensures fillers == Candidates(target, items, cond, Filler)
  {
    shapeLures, textureLures, fillers := [], [], [];
    for i := 0 to |items|
      invariant shapeLures == Candidates(target, items[..i], cond, ShapeLure)
      invariant textureLures == Candidates(target, items[..i], cond, TextureLure)
      invariant fillers == Candidates(target, items[..i], cond, Filler)
    {
      CandidatesStep(target, items, cond, i);
      var item := items[i];
      if item.fname != target.fname {
        if item.shape == target.shape {
          shapeLures := shapeLures + [Tag(item, ShapeLure, Some(target.fname))];
        } else if item.texture == target.texture {
          textureLures := textureLures + [Tag(item, TextureLure, Some(target.fname))];
        } else {
          match cond {
            case Gst =>
              if ClassDisjoint(target, item) {
                fillers := fillers + [Tag(item, Filler, Some(target.fname))];
              }
            case Baker =>
              fillers := fillers + [Tag(item, Filler, Some(target.fname))];
          }
        }
      }
    }
    assert items[..|items|] == items;
  }

  // ---------------------------------------------------------------------
  // What the roles mean
  // ---------------------------------------------------------------------

  /**
   * A shape lure has the target's shape, a texture lure its texture but not
   * its shape, a filler neither (and, under `gst`, no class in common); none
   * of them is the target's own file.
   */
  lemma RoleMeaning(target: Stimulus, item: Stimulus, cond: Condition)
    ensures RoleFor(target, item, cond).Some? ==> item.fname != target.fname
    ensures RoleFor(target, item, cond) == Some(ShapeLure) <==>
      item.fname != target.fname && item.shape == target.shape
    ensures RoleFor(target, item, cond) == Some(TextureLure) <==>
      item.fname != target.fname && item.shape != target.shape && item.texture == target.texture
    ensures RoleFor(target, item, cond) == Some(Filler) <==>
      item.fname != target.fname && item.shape != target.shape && item.texture != target.texture &&
      (cond == Gst ==> ClassDisjoint(target, item))
    ensures RoleFor(target, item, cond) != Some(Target) && RoleFor(target, item, cond) != Some(ExactMatch)
  {
  }

  /** Under `baker` every pool item other than the target receives some role. */
  lemma BakerDropsOnlyTheTarget(target: Stimulus, item: Stimulus)
    ensures RoleFor(target, item, Baker).None? <==> item.fname == target.fname
  {
  }

  /**
   * Under `gst` a non-lure that shares a class with the target is dropped:
   * it is neither a lure nor a filler.
   */
  lemma GstDropsClassOverlap(target: Stimulus, item: Stimulus)
    requires item.fname != target.fname && item.shape != target.shape && item.texture != target.texture
    ensures RoleFor(target, item, Gst).None? <==> !ClassDisjoint(target, item)
  {
  }

  /**
   * Under `baker` the three candidate lists partition the pool minus the
   * target's own file: their lengths add up to the number of other items.
   */
  lemma {:induction false} BakerPartition(target: Stimulus, items: seq<Stimulus>)
    ensures |Candidates(target, items, Baker, ShapeLure)| + |Candidates(target, items, Baker, TextureLure)| +
            |Candidates(target, items, Baker, Filler)| == |items| - CountFname(items, target.fname)
    decreases |items|
  {
    if items != [] {
      BakerPartition(target, items[..|items| - 1]);
    }
  }

  /** How many pool items carry `fname`. */
  function CountFname(items: seq<Stimulus>, fname: string): (n: nat)
    ensures n <= |items|
  {
    if items == [] then 0
    else CountFname(items[..|items| - 1], fname) + (if items[|items| - 1].fname == fname then 1 else 0)
  }
}
