/**
 * Trial records (an item tagged with a role and the fname of its target), the
 * tally of roles the source's tests count, and flattening of blocks.
 */
module Trials {
  import opened Wrappers
  import opened Stimuli

  /** The roles the generator assigns. */
  datatype Role = Target | ExactMatch | ShapeLure | TextureLure | Filler

  /**
   * A trial specification: a copy of a stimulus with `role` and `target` set
   * (`target` is `None`, the source's `null`, on the target record itself).
   * `block_num`/`trial_num` are absent until the generator stamps them.
   */
  datatype Trial = Trial(
    stim: Stimulus,
    role: Role,
    target: Option<string>,
    blockNum: Option<nat>,
    trialNum: Option<nat>)

  /** A fresh copy of `s` with its role and target set, not yet numbered. */
  function Tag(s: Stimulus, role: Role, target: Option<string>): Trial
  {
    Trial(s, role, target, None, None)
  }

  /** The roles of a list of trials, in order. */
  function RolesOf(ts: seq<Trial>): (roles: seq<Role>)
    ensures |roles| == |ts|
  {
    if ts == [] then [] else [ts[0].role] + RolesOf(ts[1..])
  }

  /** How many trials carry each role (the tests' `trialComposition`). */
  function RoleCounts(ts: seq<Trial>): multiset<Role>
  {
    multiset(RolesOf(ts))
  }

  /** The tally of `n` trials that all carry `role`. */
  function Only(role: Role, n: nat): multiset<Role>
  {
    multiset{}[role := n]
  }

  lemma {:induction false} RolesOfConcat(a: seq<Trial>, b: seq<Trial>)
    ensures RolesOf(a + b) == RolesOf(a) + RolesOf(b)
    decreases |a|
  {
    if a == [] {
      assert a + b == b;
    } else {
      assert (a + b)[1..] == a[1..] + b;
      RolesOfConcat(a[1..], b);
    }
  }

  /** The tally of a concatenation is the sum of the tallies. */
  lemma RoleCountsConcat(a: seq<Trial>, b: seq<Trial>)
    ensures RoleCounts(a + b) == RoleCounts(a) + RoleCounts(b)
  {
    RolesOfConcat(a, b);
  }

  /** A list whose trials all carry `role` tallies to `Only(role, |ts|)`. */
  lemma {:induction false} RoleCountsUniform(ts: seq<Trial>, role: Role)
    requires forall t :: t in ts ==> t.role == role
    ensures RoleCounts(ts) == Only(role, |ts|)
    decreases |ts|
  {
    if ts != [] {
      RoleCountsUniform(ts[1..], role);
      assert RolesOf(ts) == [role] + RolesOf(ts[1..]);
    }
  }

  /** Reordering trials (a shuffle) does not change the tally of roles. */
  lemma {:induction false} RoleCountsPermutation(s: seq<Trial>, t: seq<Trial>)
    requires multiset(s) == multiset(t)
    ensures RoleCounts(s) == RoleCounts(t)
    decreases |s|
  {
    if s == [] {
      assert |t| == |multiset(t)| == 0;
    } else {
      var x := s[0];
      assert x in multiset(t);
      var k :| 0 <= k < |t| && t[k] == x;
      var rest := t[..k] + t[k + 1..];
      assert t == t[..k] + [x] + t[k + 1..];
      assert s == [x] + s[1..];
      calc {
        multiset(rest);
        multiset(t[..k]) + multiset(t[k + 1..]);
        multiset(t) - multiset{x};
        multiset(s) - multiset{x};
        multiset(s[1..]);
      }
      RoleCountsPermutation(s[1..], rest);
      RoleCountsConcat(t[..k] + [x], t[k + 1..]);
      RoleCountsConcat(t[..k], [x]);
      RoleCountsConcat(t[..k], t[k + 1..]);
      RoleCountsConcat([x], s[1..]);
    }
  }

  // ---------------------------------------------------------------------
  // Flattening a list of blocks (`Array.prototype.flat`)
  // ---------------------------------------------------------------------

  function Flatten<T>(bs: seq<seq<T>>): (r: seq<T>)
  {
    if bs == [] then [] else bs[0] + Flatten(bs[1..])
  }

  /** The flat list holds exactly the elements of the blocks. */
  lemma {:induction false} FlattenMembers<T>(bs: seq<seq<T>>, x: T)
    ensures x in Flatten(bs) <==> exists b :: b in bs && x in b
    decreases |bs|
  {
    if bs != [] {
      FlattenMembers(bs[1..], x);
      assert forall b :: b in bs <==> b == bs[0] || b in bs[1..];
    }
  }

  lemma {:induction false} FlattenConcat<T>(a: seq<seq<T>>, b: seq<seq<T>>)
    ensures Flatten(a + b) == Flatten(a) + Flatten(b)
    decreases |a|
  {
    if a == [] {
      assert a + b == b;
    } else {
      assert (a + b)[1..] == a[1..] + b;
      FlattenConcat(a[1..], b);
    }
  }

  /** Appending one more group of blocks appends its blocks. */
  lemma FlattenAppend<T>(groups: seq<seq<T>>, g: seq<T>)
    ensures Flatten(groups + [g]) == Flatten(groups) + g
  {
    FlattenConcat(groups, [g]);
    assert Flatten([g]) == g + Flatten([g][1..]);
    assert [g][1..] == [];
  }

  /** A non-empty list is its prefix plus its last element. */
  lemma InitLast<T>(s: seq<T>)
    requires s != []
    ensures s == s[..|s| - 1] + [s[|s| - 1]]
  {
  }

  /** Reordering blocks does not change which elements the flat list holds. */
  lemma {:induction false} FlattenPermutation<T>(s: seq<seq<T>>, t: seq<seq<T>>)
    requires multiset(s) == multiset(t)
    ensures multiset(Flatten(s)) == multiset(Flatten(t))
    decreases |s|
  {
    if s == [] {
      assert |t| == |multiset(t)| == 0;
    } else {
      var x := s[0];
      assert x in multiset(t);
      var k :| 0 <= k < |t| && t[k] == x;
      var rest := t[..k] + t[k + 1..];
      RemoveAt(t, k);
      assert s == [x] + s[1..];
      assert multiset(s[1..]) == multiset(rest);
      FlattenPermutation(s[1..], rest);
      FlattenRemoveAt(t, k);
    }
  }

  /** Dropping the element at `k` removes one occurrence of it. */
  lemma RemoveAt<T>(t: seq<T>, k: nat)
    requires k < |t|
    ensures multiset(t[..k] + t[k + 1..]) == multiset(t) - multiset{t[k]}
  {
    assert t == t[..k] + [t[k]] + t[k + 1..];
  }

  /** The flat list holds block `k` plus the flattening of the other blocks. */
  lemma FlattenRemoveAt<T>(t: seq<seq<T>>, k: nat)
    requires k < |t|
    ensures multiset(Flatten(t)) == multiset(t[k]) + multiset(Flatten(t[..k] + t[k + 1..]))
  {
    var before, after := Flatten(t[..k]), Flatten(t[k + 1..]);
    FlattenSplitAt(t, k);
    FlattenConcat(t[..k], t[k + 1..]);
    assert multiset(before + t[k] + after) == multiset(before) + multiset(t[k]) + multiset(after);
    assert multiset(before + after) == multiset(before) + multiset(after);
  }

  /** Flattening around block `k`. */
  lemma {:induction false} FlattenSplitAt<T>(t: seq<seq<T>>, k: nat)
    requires k < |t|
    ensures Flatten(t) == Flatten(t[..k]) + t[k] + Flatten(t[k + 1..])
    decreases k
  {
    if k == 0 {
      assert t[..0] == [];
    } else {
      var tail := t[1..];
      FlattenSplitAt(tail, k - 1);
      assert tail[k - 1] == t[k] && tail[k..] == t[k + 1..];
      assert t[..k][0] == t[0] && t[..k][1..] == tail[..k - 1];
      var before, after := Flatten(tail[..k - 1]), Flatten(t[k + 1..]);
      calc {
        Flatten(t);
        t[0] + Flatten(tail);
        t[0] + (before + t[k] + after);
        (t[0] + before) + t[k] + after;
        { assert Flatten(t[..k]) == t[0] + before; }
        Flatten(t[..k]) + t[k] + after;
      }
    }
  }

  /** When every block has length `len`, element `i*len + j` is `bs[i][j]`. */
  lemma {:induction false} FlattenAt<T>(bs: seq<seq<T>>, len: nat, i: nat, j: nat)
    requires forall k :: 0 <= k < |bs| ==> |bs[k]| == len
    requires i < |bs| && j < len
    ensures |Flatten(bs)| == |bs| * len
    ensures i * len + j < |Flatten(bs)| && Flatten(bs)[i * len + j] == bs[i][j]
    decreases |bs|
  {
    if i == 0 {
      FlattenLength(bs, len);
    } else {
      FlattenAt(bs[1..], len, i - 1, j);
      assert i * len + j == len + ((i - 1) * len + j);
      FlattenLength(bs, len);
    }
  }

  lemma {:induction false} FlattenLength<T>(bs: seq<seq<T>>, len: nat)
    requires forall k :: 0 <= k < |bs| ==> |bs[k]| == len
    ensures |Flatten(bs)| == |bs| * len
    decreases |bs|
  {
    if bs != [] {
      FlattenLength(bs[1..], len);
      assert |bs| * len == len + (|bs| - 1) * len;
    }
  }
}
