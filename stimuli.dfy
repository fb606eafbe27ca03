/**
 * Stimulus items and the filename parser (`filterAlpha`, `stimProperties`).
 *
 * A stimulus file is named `<shape>_<texture>.<ext>`. Under the `gst`
 * condition each item also carries a shape class and a texture class: the
 * shape and texture with every non-letter removed (`bird5` becomes `bird`).
 */
module Stimuli {
  import opened Wrappers

  /** The stimulus condition tag, `"baker"` or `"gst"` in the source. */
  datatype Condition = Baker | Gst

  /**
   * A parsed stimulus. The two class fields are absent (`None`) under `baker`,
   * exactly as the source leaves `shape_class`/`texture_class` undefined.
   */
  datatype Stimulus = Stimulus(
    fname: string,
    shape: string,
    texture: string,
    shapeClass: Option<string>,
    textureClass: Option<string>)

  // ---------------------------------------------------------------------
  // Splitting on one character, as `String.prototype.split` does
  // ---------------------------------------------------------------------

  /** Number of occurrences of `c` in `s`. */
  function Count(s: string, c: char): nat
  {
    if s == [] then 0 else (if s[0] == c then 1 else 0) + Count(s[1..], c)
  }

  /** The inverse of `Split`: the parts glued back with the separator. */
  function Join(parts: seq<string>, sep: char): string
  {
    if parts == [] then []
    else if |parts| == 1 then parts[0]
    else parts[0] + [sep] + Join(parts[1..], sep)
  }

  /**
   * `s.split(sep)`: the maximal separator-free pieces of `s`, in order. There
   * is always one piece more than there are separators (`"".split(".")` is
   * `[""]`), and joining the pieces gives `s` back.
   */
  function Split(s: string, sep: char): (parts: seq<string>)
    ensures |parts| == Count(s, sep) + 1
    ensures forall i :: 0 <= i < |parts| ==> sep !in parts[i]
    ensures Join(parts, sep) == s
  {
    if s == [] then [[]]
    else
      var rest := Split(s[1..], sep);
      if s[0] == sep then
        assert s == [sep] + s[1..];
        [[]] + rest
      else
        var parts := [[s[0]] + rest[0]] + rest[1..];
        assert parts[1..] == rest[1..];
        assert |rest| > 1 ==> Join(rest, sep) == rest[0] + [sep] + Join(rest[1..], sep);
        assert s == [s[0]] + s[1..];
        parts
  }

  /** The text before the first occurrence of `c` (all of `s` if there is none). */
  function BeforeFirst(s: string, c: char): (r: string)
    ensures c !in r && r <= s
    ensures |r| < |s| ==> s[|r|] == c
  {
    if s == [] || s[0] == c then [] else [s[0]] + BeforeFirst(s[1..], c)
  }

  lemma {:induction false} SplitHead(s: string, sep: char)
    ensures Split(s, sep)[0] == BeforeFirst(s, sep)
    decreases |s|
  {
    if s != [] && s[0] != sep {
      SplitHead(s[1..], sep);
    }
  }

  /** A separator-free string splits into itself alone. */
  lemma {:induction false} SplitNoSeparator(a: string, sep: char)
    requires sep !in a
    ensures Split(a, sep) == [a]
    decreases |a|
  {
    if a != [] {
      SplitNoSeparator(a[1..], sep);
    }
  }

  /** Splitting `a + sep + b` with a separator-free `a` peels off `a`. */
  lemma {:induction false} SplitAfterPiece(a: string, sep: char, b: string)
    requires sep !in a
    ensures Split(a + [sep] + b, sep) == [a] + Split(b, sep)
    decreases |a|
  {
    if a == [] {
      assert a + [sep] + b == [sep] + b;
      assert ([sep] + b)[1..] == b;
    } else {
      assert (a + [sep] + b)[1..] == a[1..] + [sep] + b;
      SplitAfterPiece(a[1..], sep, b);
      assert [a[0]] + a[1..] == a;
    }
  }

  /** Split undoes Join on separator-free pieces (the other round trip). */
  lemma {:induction false} SplitJoin(parts: seq<string>, sep: char)
    requires |parts| >= 1
    requires forall i :: 0 <= i < |parts| ==> sep !in parts[i]
    ensures Split(Join(parts, sep), sep) == parts
    decreases |parts|
  {
    if |parts| == 1 {
      SplitNoSeparator(parts[0], sep);
    } else {
      SplitJoin(parts[1..], sep);
      SplitAfterPiece(parts[0], sep, Join(parts[1..], sep));
      assert [parts[0]] + parts[1..] == parts;
    }
  }

  // ---------------------------------------------------------------------
  // filterAlpha
  // ---------------------------------------------------------------------

  /** The character class `[a-zA-Z]`. */
  predicate IsLetter(c: char)
  {
    'a' <= c <= 'z' || 'A' <= c <= 'Z'
  }

  predicate AllLetters(s: string)
  {
    forall i :: 0 <= i < |s| ==> IsLetter(s[i])
  }

  /** `filterAlpha`: the letters of `s`, in their original order. */
  function FilterAlpha(s: string): (r: string)
    ensures AllLetters(r)
    ensures |r| <= |s|
  {
    if s == [] then []
    else (if IsLetter(s[0]) then [s[0]] else []) + FilterAlpha(s[1..])
  }

  /** Filtering distributes over concatenation. */
  lemma {:induction false} FilterAlphaConcat(a: string, b: string)
    ensures FilterAlpha(a + b) == FilterAlpha(a) + FilterAlpha(b)
    decreases |a|
  {
    if a == [] {
      assert a + b == b;
    } else {
      var c := a + b;
      var head := if IsLetter(a[0]) then [a[0]] else [];
      assert c[0] == a[0] && c[1..] == a[1..] + b;
      FilterAlphaConcat(a[1..], b);
      calc {
        FilterAlpha(c);
        head + FilterAlpha(a[1..] + b);
        head + (FilterAlpha(a[1..]) + FilterAlpha(b));
        (head + FilterAlpha(a[1..])) + FilterAlpha(b);
        FilterAlpha(a) + FilterAlpha(b);
      }
    }
  }

  /** A letters-only string is left as it is, so filtering is idempotent. */
  lemma {:induction false} FilterAlphaFixesLetters(s: string)
    ensures AllLetters(s) <==> FilterAlpha(s) == s
    decreases |s|
  {
    if s != [] {
      FilterAlphaFixesLetters(s[1..]);
      if !IsLetter(s[0]) {
        assert |FilterAlpha(s)| <= |s[1..]| < |s|;
      }
    }
  }

  /** Appending digits to a letters-only class name does not change its class. */
  lemma DigitSuffixDropped(name: string, digits: string)
    requires AllLetters(name)
    requires forall i :: 0 <= i < |digits| ==> '0' <= digits[i] <= '9'
    ensures FilterAlpha(name + digits) == name
  {
    FilterAlphaConcat(name, digits);
    FilterAlphaFixesLetters(name);
    NonLettersFilterToEmpty(digits);
  }

  /** A string without a letter filters to the empty string. */
  lemma {:induction false} NonLettersFilterToEmpty(s: string)
    requires forall i :: 0 <= i < |s| ==> !IsLetter(s[i])
    ensures FilterAlpha(s) == []
    decreases |s|
  {
    if s != [] {
      NonLettersFilterToEmpty(s[1..]);
    }
  }

  /** Filtering keeps exactly the letters of the input, in order: nothing else survives. */
  lemma NonLettersDropped(prefix: string, noise: string, suffix: string)
    requires forall i :: 0 <= i < |noise| ==> !IsLetter(noise[i])
    ensures FilterAlpha(prefix + noise + suffix) == FilterAlpha(prefix) + FilterAlpha(suffix)
  {
    NonLettersFilterToEmpty(noise);
    calc {
      FilterAlpha(prefix + noise + suffix);
      { FilterAlphaConcat(prefix + noise, suffix); }
      FilterAlpha(prefix + noise) + FilterAlpha(suffix);
      { FilterAlphaConcat(prefix, noise); }
      FilterAlpha(prefix) + [] + FilterAlpha(suffix);
    }
    assert FilterAlpha(prefix) + [] == FilterAlpha(prefix);
  }

  // ---------------------------------------------------------------------
  // stimProperties
  // ---------------------------------------------------------------------

  /** The item the source builds from the two underscore parts of the stem. */
  function MakeStimulus(fname: string, shape: string, texture: string, cond: Condition): (r: Stimulus)
    ensures r.fname == fname && r.shape == shape && r.texture == texture
    ensures r.shapeClass.Some? <==> cond == Gst
    ensures r.textureClass.Some? <==> cond == Gst
    ensures cond == Gst ==> AllLetters(r.shapeClass.value) && AllLetters(r.textureClass.value)
  {
    match cond
    case Baker => Stimulus(fname, shape, texture, None, None)
    case Gst => Stimulus(fname, shape, texture, Some(FilterAlpha(shape)), Some(FilterAlpha(texture)))
  }

  /**
   * One iteration of `stimProperties`: split on `.` (exactly two pieces
   * required), split the stem on `_` (exactly two pieces required).
   */
  function ParseFilename(fname: string, cond: Condition): (r: Result<Stimulus>)
    ensures r.Failure? ==> r.error == MalformedFilename(fname)
    ensures r.Success? ==>
      var s := r.value;
      s.fname == fname &&
      '.' !in s.shape && '_' !in s.shape && '.' !in s.texture && '_' !in s.texture &&
      s.shape + "_" + s.texture + "." <= fname &&
      '.' !in fname[|s.shape| + |s.texture| + 2..]
    ensures r.Success? ==> r.value == MakeStimulus(fname, r.value.shape, r.value.texture, cond)
  {
    var dotSplits := Split(fname, '.');
    if |dotSplits| != 2 then Failure(MalformedFilename(fname))
    else
      var underscoreSplits := Split(dotSplits[0], '_');
      if |underscoreSplits| != 2 then Failure(MalformedFilename(fname))
      else
        var shape, texture := underscoreSplits[0], underscoreSplits[1];
        assert dotSplits[0] == shape + "_" + texture by {
          assert Join(underscoreSplits, '_') == shape + ['_'] + Join(underscoreSplits[1..], '_');
        }
        assert fname == dotSplits[0] + "." + dotSplits[1] by {
          assert Join(dotSplits, '.') == dotSplits[0] + ['.'] + Join(dotSplits[1..], '.');
        }
        assert fname[|shape| + |texture| + 2..] == dotSplits[1];
        Success(MakeStimulus(fname, shape, texture, cond))
  }

  /**
   * Every well-formed `<shape>_<texture>.<ext>` name parses back into exactly
   * its shape and texture (the ext may itself contain underscores).
   */
  lemma ParseComposed(shape: string, texture: string, ext: string, cond: Condition)
    requires '.' !in shape && '_' !in shape
    requires '.' !in texture && '_' !in texture
    requires '.' !in ext
    ensures ParseFilename(shape + "_" + texture + "." + ext, cond)
            == Success(MakeStimulus(shape + "_" + texture + "." + ext, shape, texture, cond))
  {
    var stem := shape + "_" + texture;
    assert '.' !in stem;
    SplitAfterPiece(stem, '.', ext);
    SplitNoSeparator(ext, '.');
    SplitAfterPiece(shape, '_', texture);
    SplitNoSeparator(texture, '_');
  }

  /**
   * The parser rejects a name exactly when it has other than one dot, or the
   * part before the dot has other than one underscore.
   */
  lemma ParseFailsIff(fname: string, cond: Condition)
    ensures ParseFilename(fname, cond).Failure? <==>
            Count(fname, '.') != 1 || Count(BeforeFirst(fname, '.'), '_') != 1
  {
    SplitHead(fname, '.');
  }

  /**
   * Under `gst` a name `<letters><digits>_<letters><digits>.<ext>` gets the
   * two letter runs as its classes.
   */
  lemma GstClassesDropDigits(shapeClass: string, shapeDigits: string, textureClass: string, textureDigits: string,
                             ext: string)
    requires AllLetters(shapeClass) && AllLetters(textureClass)
    requires forall i :: 0 <= i < |shapeDigits| ==> '0' <= shapeDigits[i] <= '9'
    requires forall i :: 0 <= i < |textureDigits| ==> '0' <= textureDigits[i] <= '9'
    requires '.' !in ext
    ensures var shape, texture := shapeClass + shapeDigits, textureClass + textureDigits;
      var fname := shape + "_" + texture + "." + ext;
      ParseFilename(fname, Gst) == Success(Stimulus(fname, shape, texture, Some(shapeClass), Some(textureClass)))
  {
    var shape, texture := shapeClass + shapeDigits, textureClass + textureDigits;
    forall i | 0 <= i < |shape| ensures shape[i] != '.' && shape[i] != '_' {
      if i < |shapeClass| { assert shape[i] == shapeClass[i]; } else { assert shape[i] == shapeDigits[i - |shapeClass|]; }
    }
    forall i | 0 <= i < |texture| ensures texture[i] != '.' && texture[i] != '_' {
      if i < |textureClass| { assert texture[i] == textureClass[i]; } else { assert texture[i] == textureDigits[i - |textureClass|]; }
    }
    ParseComposed(shape, texture, ext, Gst);
    DigitSuffixDropped(shapeClass, shapeDigits);
    DigitSuffixDropped(textureClass, textureDigits);
  }

  /** Name `i` is the first one the parser rejects. */
  predicate FirstMalformed(stimFnames: seq<string>, cond: Condition, i: nat)
    requires i < |stimFnames|
  {
    ParseFilename(stimFnames[i], cond).Failure? &&
    forall j :: 0 <= j < i ==> ParseFilename(stimFnames[j], cond).Success?
  }

  /**
   * `stimProperties`: parses every name, in order, failing on the first
   * malformed one.
   */
  method StimProperties(stimFnames: seq<string>, cond: Condition) returns (r: Result<seq<Stimulus>>)
    ensures r.Success? <==> forall i :: 0 <= i < |stimFnames| ==> ParseFilename(stimFnames[i], cond).Success?
    ensures r.Success? ==> |r.value| == |stimFnames|
    ensures r.Success? ==>
      forall i :: 0 <= i < |stimFnames| ==> ParseFilename(stimFnames[i], cond) == Success(r.value[i])
    ensures r.Failure? ==>
      exists i :: 0 <= i < |stimFnames| && FirstMalformed(stimFnames, cond, i) &&
                  r.error == MalformedFilename(stimFnames[i])
  {
    var items: seq<Stimulus> := [];
    for i := 0 to |stimFnames|
      invariant |items| == i
      invariant forall j :: 0 <= j < i ==> ParseFilename(stimFnames[j], cond) == Success(items[j])
    {
      var item := ParseFilename(stimFnames[i], cond);
      if item.Failure? {
        return Failure(item.error);
      }
      items := items + [item.value];
    }
    return Success(items);
  }
}
