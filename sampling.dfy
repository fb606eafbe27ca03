/**
 * The random sampling helpers (`sampleWithReplacement`,
 * `sampleWithoutReplacement`, `sampleKeyMapping`) and the library shuffle
 * they rest on. Every random draw is a nondeterministic choice (`:|`), so each
 * contract holds for every outcome of the draws; uniformity is not modelled.
 */
module Sampling {
  import opened Wrappers

  /**
   * `_.shuffle`: some ordering of the input. Built by repeatedly moving an
   * arbitrarily chosen remaining element to the output.
   */
  method Shuffle<T>(s: seq<T>) returns (r: seq<T>)
    ensures |r| == |s|
    ensures multiset(r) == multiset(s)
  {
    r := [];
    var rest := s;
    while rest != []
      invariant |r| + |rest| == |s|
      invariant multiset(r) + multiset(rest) == multiset(s)
      decreases |rest|
    {
      var k :| 0 <= k < |rest|;
      assert rest == rest[..k] + [rest[k]] + rest[k + 1..];
      r := r + [rest[k]];
      rest := rest[..k] + rest[k + 1..];
    }
  }

  /**
   * `sampleWithReplacement`: `numSamples` independent draws from `arr`
   * (duplicates allowed). Fails on an empty array, whatever `numSamples` is.
   */
  method SampleWithReplacement<T>(arr: seq<T>, numSamples: nat) returns (r: Result<seq<T>>)
    ensures r.Failure? <==> arr == []
    ensures r.Failure? ==> r.error == EmptyArr
    ensures r.Success? ==> |r.value| == numSamples
    ensures r.Success? ==> forall x :: x in r.value ==> x in arr
  {
    if arr == [] {
      return Failure(EmptyArr);
    }
    var out: seq<T> := [];
    for i := 0 to numSamples
      invariant |out| == i
      invariant forall x :: x in out ==> x in arr
    {
      var k :| 0 <= k < |arr|;  // _.sample(arr)
      out := out + [arr[k]];
    }
    return Success(out);
  }

  /**
   * `sampleWithoutReplacement`: the first `numSamples` elements of a shuffle,
   * so no element is taken more often than it occurs in `arr`.
   */
  method SampleWithoutReplacement<T>(arr: seq<T>, numSamples: nat) returns (r: Result<seq<T>>)
    ensures r.Failure? <==> arr == [] || numSamples > |arr|
    ensures r.Failure? ==> r.error == (if arr == [] then EmptyArr else TooManySamples)
    ensures r.Success? ==> |r.value| == numSamples
    ensures r.Success? ==> multiset(r.value) <= multiset(arr)
  {
    if arr == [] {
      return Failure(EmptyArr);
    }
    if numSamples > |arr| {
      return Failure(TooManySamples);
    }
    var shuffled := Shuffle(arr);
    assert shuffled == shuffled[..numSamples] + shuffled[numSamples..];
    return Success(shuffled[..numSamples]);
  }

  /** Drawing all of an array without replacement is a reordering of it. */
  lemma SampleAllIsPermutation<T>(arr: seq<T>, sample: seq<T>)
    requires |sample| == |arr| && multiset(sample) <= multiset(arr)
    ensures multiset(sample) == multiset(arr)
  {
    var extra := multiset(arr) - multiset(sample);
    assert multiset(arr) == multiset(sample) + extra;
    assert |multiset(arr)| == |multiset(sample)| + |extra|;
  }

  /** The meaning-to-key assignment shown to a participant. */
  datatype KeyMapping<K> = KeyMapping(yes: K, no: K)

  /** `sampleKeyMapping`: a random assignment of the two valid keys to yes/no. */
  method SampleKeyMapping<K>(validKeys: seq<K>) returns (r: Result<KeyMapping<K>>)
    ensures r.Failure? <==> |validKeys| != 2
    ensures r.Failure? ==> r.error == InvalidKeyCount
    ensures r.Success? ==> multiset{r.value.yes, r.value.no} == multiset(validKeys)
  {
    if |validKeys| != 2 {
      return Failure(InvalidKeyCount);
    }
    var order := Shuffle(validKeys);
    assert order == [order[0], order[1]];
    return Success(KeyMapping(order[0], order[1]));
  }

  /** With two different keys the mapping is one of the two bijections. */
  lemma KeyMappingIsBijection<K>(validKeys: seq<K>, m: KeyMapping<K>)
    requires |validKeys| == 2 && validKeys[0] != validKeys[1]
    requires multiset{m.yes, m.no} == multiset(validKeys)
    ensures m.yes != m.no
    ensures m == KeyMapping(validKeys[0], validKeys[1]) || m == KeyMapping(validKeys[1], validKeys[0])
  {
    assert validKeys == [validKeys[0], validKeys[1]];
    assert multiset(validKeys) == multiset{validKeys[0], validKeys[1]};
    assert m.yes in multiset{validKeys[0], validKeys[1]};
    assert m.no in multiset{validKeys[0], validKeys[1]};
  }
}
