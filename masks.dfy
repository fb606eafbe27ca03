/**
 * `sampleNonmatchMask`: a mask image whose name mentions neither the
 * stimulus's shape nor its texture.
 */
module Masks {

  /** `s.includes(sub)`: `sub` occurs in `s` at some position (the empty string everywhere). */
  predicate Contains(s: string, sub: string)
    ensures Contains(s, sub) ==> |sub| <= |s|
  {
    sub <= s || (s != [] && Contains(s[1..], sub))
  }

  /** `sub` sits in `s` starting at index `i`. */
  predicate OccursAt(s: string, sub: string, i: int)
  {
    0 <= i && i + |sub| <= |s| && s[i..i + |sub|] == sub
  }

  /** `Contains` agrees with reading `includes` as "some window of `s` equals `sub`". */
  lemma ContainsIff(s: string, sub: string)
    ensures Contains(s, sub) <==> exists i :: OccursAt(s, sub, i)
  {
    if Contains(s, sub) {
      var i := ContainsWitness(s, sub);
    }
    if exists i :: OccursAt(s, sub, i) {
      var i :| OccursAt(s, sub, i);
      OccursAtContains(s, sub, i);
    }
  }

  /** Where a contained string occurs. */
  lemma {:induction false} ContainsWitness(s: string, sub: string) returns (i: nat)
    requires Contains(s, sub)
    ensures OccursAt(s, sub, i)
    decreases |s|
  {
    if sub <= s {
      i := 0;
    } else {
      var j := ContainsWitness(s[1..], sub);
      assert s[j + 1..j + 1 + |sub|] == s[1..][j..j + |sub|];
      i := j + 1;
    }
  }

  /** An occurrence at any index is found by `Contains`. */
  lemma {:induction false} OccursAtContains(s: string, sub: string, i: nat)
    requires OccursAt(s, sub, i)
    ensures Contains(s, sub)
    decreases i
  {
    if i == 0 {
      assert sub <= s;
    } else {
      assert s[1..][i - 1..i - 1 + |sub|] == s[i..i + |sub|];
      OccursAtContains(s[1..], sub, i - 1);
    }
  }

  /** A mask that shares neither name part with the stimulus. */
  predicate IsValidMask(maskName: string, stimShape: string, stimTexture: string)
  {
    !Contains(maskName, stimShape) && !Contains(maskName, stimTexture)
  }

  /** The masks the rejection loop can return, in list order. */
  function ValidMasks(maskNames: seq<string>, stimShape: string, stimTexture: string): (r: seq<string>)
    ensures forall m :: m in r <==> m in maskNames && IsValidMask(m, stimShape, stimTexture)
  {
    if maskNames == [] then []
    else
      var rest := ValidMasks(maskNames[1..], stimShape, stimTexture);
      if IsValidMask(maskNames[0], stimShape, stimTexture) then [maskNames[0]] + rest else rest
  }

  /**
   * `sampleNonmatchMask`: the draw-until-valid loop, as one draw among the
   * valid masks. With an empty list `_.sample` yields `undefined` and the
   * `includes` call on it (generate_trial_specs.js line 328) throws a
   * TypeError; with a non-empty list and no valid mask the loop never ends.
   * Neither outcome is modelled, so a valid mask must exist.
   */
  method SampleNonmatchMask(maskNames: seq<string>, stimShape: string, stimTexture: string)
    returns (maskName: string)
    requires exists m :: m in maskNames && IsValidMask(m, stimShape, stimTexture)
    ensures maskName in maskNames
    ensures !Contains(maskName, stimShape) && !Contains(maskName, stimTexture)
  {
    var valid := ValidMasks(maskNames, stimShape, stimTexture);
    var k :| 0 <= k < |valid|;  // the draw that is finally accepted
    maskName := valid[k];
  }

  /** Every name contains the empty string, so an empty shape or texture rules out every mask. */
  lemma {:induction false} EmptyPartRulesOutEveryMask(maskNames: seq<string>, other: string)
    ensures ValidMasks(maskNames, "", other) == [] && ValidMasks(maskNames, other, "") == []
  {
    if maskNames != [] {
      EmptyPartRulesOutEveryMask(maskNames[1..], other);
      assert [] <= maskNames[0];
    }
  }

  /** Containment is preserved by extending the string on the left. */
  lemma {:induction false} ContainsInSuffix(s: string, sub: string, prefix: string)
    requires Contains(s, sub)
    ensures Contains(prefix + s, sub)
    decreases |prefix|
  {
    if prefix != [] {
      ContainsInSuffix(s, sub, prefix[1..]);
      assert (prefix + s)[1..] == prefix[1..] + s;
    } else {
      assert prefix + s == s;
    }
  }

  /** A mask named after the stimulus's shape and texture is never valid. */
  lemma StimulusOwnNameIsInvalid(stimShape: string, stimTexture: string, ext: string)
    ensures !IsValidMask(stimShape + "_" + stimTexture + "." + ext, stimShape, stimTexture)
  {
    var name := stimShape + "_" + stimTexture + "." + ext;
    assert stimShape <= name;
    var rest := stimTexture + "." + ext;
    assert stimTexture <= rest;
    assert name == (stimShape + "_") + rest;
    ContainsInSuffix(rest, stimTexture, stimShape + "_");
  }
}
