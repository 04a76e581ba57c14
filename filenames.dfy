/**
 * File-name derivation of the pipeline driver. Every intermediate name is
 * computed by `re.sub(r'.bam$', suffix, previous)`: the dot is unescaped, so
 * it stands for any character except a newline, and `$` anchors the match at
 * the end of the name.
 */
module FileNames {

  type Path = string

  /** The text the pattern matches in the names `main` builds. */
  const DotBam: string := ".bam"

  /** The five replacement templates: `.sorted.bam`, `.rg.bam`, `.md.bam`, `.split.bam`, `.bam.vcf`. */
  const SortedSuffix: string := ".sorted" + DotBam
  const RgSuffix: string := ".rg" + DotBam
  const MdSuffix: string := ".md" + DotBam
  const SplitSuffix: string := ".split" + DotBam
  const VcfSuffix: string := DotBam + ".vcf"

  /** `s` ends in a match of the pattern `.bam`: one non-newline character, then "bam". */
  predicate EndsWithDotBam(s: string) {
    |s| >= 4 && s[|s| - 4] != '\n' && s[|s| - 3] == 'b' && s[|s| - 2] == 'a' && s[|s| - 1] == 'm'
  }

  /** The part of `s` before its last four characters (the part `.bam` does not cover). */
  function Stem(s: string): (r: string)
    requires |s| >= 4
    ensures |r| + 4 == |s|
  {
    s[..|s| - 4]
  }

  /**
   * `re.sub(r'.bam$', suffix, name)`. The anchor admits at most one match, at
   * the end; without it the name comes back unchanged. The suffix is inserted
   * as it is: the five templates `main` passes contain no backslash, so
   * `re.sub` expands nothing in them.
   */
  function Sub(name: Path, suffix: string): (r: Path)
  {
    if EndsWithDotBam(name) then Stem(name) + suffix else name
  }

  /** A name made of any stem, one non-newline character and "bam" loses those four characters to the suffix. */
  lemma SubReplacesDotBam(stem: string, c: char, suffix: string)
    requires c != '\n'
    ensures Sub(stem + [c] + "bam", suffix) == stem + suffix
  {
    var name := stem + [c] + "bam";
    assert name[|name| - 4] == c;
    assert Stem(name) == stem;
  }

  /** A newline-free name that does not end in a match comes back unchanged. */
  lemma SubLeavesOtherNames(name: Path, suffix: string)
    requires '\n' !in name
    requires !EndsWithDotBam(name)
    ensures Sub(name, suffix) == name
  {
  }

  /** Matching names: the result is the stem plus the suffix, so a suffix longer than four characters lengthens it. */
  lemma SubLengthens(name: Path, suffix: string)
    requires EndsWithDotBam(name)
    ensures |Sub(name, suffix)| == |name| - 4 + |suffix|
    ensures |suffix| > 4 ==> |Sub(name, suffix)| > |name|
  {
  }

  /**
   * A suffix of the form `x + DotBam` gives the stem followed by `x` and ".bam":
   * a name that still ends in a match, and whose stem is the old stem followed
   * by `x`. Suffixes accumulate.
   */
  lemma {:induction false} SubAccumulates(name: Path, x: string)
    requires EndsWithDotBam(name)
    ensures Sub(name, x + DotBam) == Stem(name) + x + DotBam
    ensures EndsWithDotBam(Sub(name, x + DotBam))
    ensures Stem(Sub(name, x + DotBam)) == Stem(name) + x
  {
    var r := Sub(name, x + DotBam);
    assert r == Stem(name) + x + DotBam;
    assert r[|r| - 4] == '.';
    assert r[..|r| - 4] == Stem(name) + x;
  }
}
