/**
 * What the driver promises, stated over the specification functions that
 * `Workspace.Cleanup` and `Workspace.RunPipeline` are proved against.
 */
module PipelineFacts {

  import opened FileNames
  import opened BamHeader
  import opened Pipeline

  // ---------------------------------------------------------------------
  // cleanup
  // ---------------------------------------------------------------------

  /**
   * `cleanup` issues a removal for a path exactly when the path is listed and
   * is a file: absent paths are skipped, unlisted files are never touched.
   */
  lemma {:induction false} RemovalsAreListedFiles(ps: seq<Path>, fs: set<Path>)
    ensures forall e :: e in Removals(ps, fs) ==> e.Remove? && e.path in ps && e.path in fs
    ensures forall p :: p in ps && p in fs ==> Remove(p) in Removals(ps, fs)
  {
    if ps != [] {
      var init := ps[..|ps| - 1];
      var last := ps[|ps| - 1];
      RemovalsAreListedFiles(init, fs);
      assert ps == init + [last];
      forall p | p in ps && p in fs
        ensures Remove(p) in Removals(ps, fs)
      {
        if p !in init {
          assert p == last;
          assert p !in Listed(init);
        }
      }
    }
  }

  /** No path is removed twice, even when it is listed twice. */
  lemma {:induction false} RemovalsAreDistinct(ps: seq<Path>, fs: set<Path>)
    ensures forall i, j :: 0 <= i < j < |Removals(ps, fs)| ==> Removals(ps, fs)[i] != Removals(ps, fs)[j]
  {
    if ps != [] {
      var init := ps[..|ps| - 1];
      var last := ps[|ps| - 1];
      RemovalsAreDistinct(init, fs);
      RemovalsAreListedFiles(init, fs);
      if last in fs - Listed(init) {
        assert Remove(last) !in Removals(init, fs);
      }
    }
  }

  /** A list none of whose paths is a file: `cleanup` issues nothing and does not fail. */
  lemma {:induction false} RemovalsOfAbsentPaths(ps: seq<Path>, fs: set<Path>)
    requires forall i :: 0 <= i < |ps| ==> ps[i] !in fs
    ensures Removals(ps, fs) == []
  {
    if ps != [] {
      RemovalsOfAbsentPaths(ps[..|ps| - 1], fs);
    }
  }

  /**
   * Running `cleanup` a second time on the filesystem the first run left
   * issues nothing and changes nothing.
   */
  lemma CleanupIdempotent(ps: seq<Path>, fs: set<Path>)
    ensures Removals(ps, fs - Listed(ps)) == []
    ensures fs - Listed(ps) - Listed(ps) == fs - Listed(ps)
  {
    RemovalsOfAbsentPaths(ps, fs - Listed(ps));
  }

  // ---------------------------------------------------------------------
  // the sort decision and the order of the stages
  // ---------------------------------------------------------------------

  /** The stage of every command of `main`, in order. */
  function StagesOf(cmds: seq<Event>): (r: seq<Stage>)
    requires forall i :: 0 <= i < |cmds| ==> cmds[i].Run?
    ensures |r| == |cmds|
  {
    seq(|cmds|, i requires 0 <= i < |cmds| => cmds[i].stage)
  }

  /**
   * A coordinate-sorted header means no sort command and the input itself as
   * the "sorted" name; any other header means exactly one sort command, first,
   * reading the input and writing its `.sorted.bam` name.
   */
  lemma SortIssuedUnlessCoordinateSorted(input: Path, h: Header)
    ensures var cmds := Commands(input, IsBamSorted(h));
      && (forall i :: 0 < i < |cmds| ==> cmds[i].stage != Sort)
      && (cmds[0].stage == Sort <==> !("HD" in h && "SO" in h["HD"] && h["HD"]["SO"] == "coordinate"))
      && (cmds[0].stage == Sort ==> cmds[0] == Run(Sort, input, Sub(input, SortedSuffix)))
      && (cmds[0].stage != Sort ==> DeriveNames(input, IsBamSorted(h)).sorted == input)
  {
    var sorted := IsBamSorted(h);
    var n := DeriveNames(input, sorted);
    assert Commands(input, sorted) == (if sorted then [] else [Run(Sort, input, n.sorted)]) + StageCommands(n);
  }

  /** The chaining facts, for any names whose sorted name is the input when the sort is skipped. */
  lemma CommandsForChain(input: Path, alreadySorted: bool, n: Names)
    requires alreadySorted ==> n.sorted == input
    ensures var cmds := CommandsFor(input, alreadySorted, n);
      && (forall i :: 0 <= i < |cmds| ==> cmds[i].Run?)
      && StagesOf(cmds) == (if alreadySorted then [] else [Sort])
                           + [Reheader, MarkDuplicates, SplitNCigarReads, HaplotypeCaller]
      && cmds[0].input == input
      && (forall i :: 0 < i < |cmds| ==> cmds[i].input == cmds[i - 1].output)
      && cmds[|cmds| - 1].output == n.vcf
  {
    var cmds := CommandsFor(input, alreadySorted, n);
    if alreadySorted {
      assert cmds == StageCommands(n);
    } else {
      assert cmds == [Run(Sort, input, n.sorted)] + StageCommands(n);
    }
  }

  /**
   * The stages always run in the order (sort), reheader, MarkDuplicates,
   * SplitNCigarReads, HaplotypeCaller; the first reads the input, each later
   * one reads the output of the one before it, the last writes the VCF name.
   */
  lemma StagesChain(input: Path, alreadySorted: bool)
    ensures var cmds := Commands(input, alreadySorted);
      && (forall i :: 0 <= i < |cmds| ==> cmds[i].Run?)
      && StagesOf(cmds) == (if alreadySorted then [] else [Sort])
                           + [Reheader, MarkDuplicates, SplitNCigarReads, HaplotypeCaller]
      && cmds[0].input == input
      && (forall i :: 0 < i < |cmds| ==> cmds[i].input == cmds[i - 1].output)
      && cmds[|cmds| - 1].output == DeriveNames(input, alreadySorted).vcf
  {
    CommandsForChain(input, alreadySorted, DeriveNames(input, alreadySorted));
  }

  // ---------------------------------------------------------------------
  // the name chain
  // ---------------------------------------------------------------------

  /** From a sorted name ending in a match of `.bam`, the later names keep its stem and add their suffixes. */
  lemma NamesFromDotBam(sorted: Path)
    requires EndsWithDotBam(sorted)
    ensures var stem := Stem(sorted);
      NamesFrom(sorted)
        == Names(sorted, stem + ".rg" + ".bam", stem + ".rg" + ".md" + ".bam",
                 stem + ".rg" + ".md" + ".split" + ".bam", stem + ".rg" + ".md" + ".split" + ".bam.vcf")
  {
    var stem := Stem(sorted);
    var reheadered := Sub(sorted, RgSuffix);
    assert reheadered == stem + ".rg" + ".bam" && EndsWithDotBam(reheadered) && Stem(reheadered) == stem + ".rg" by {
      SubAccumulates(sorted, ".rg");
    }
    var marked := Sub(reheadered, MdSuffix);
    assert marked == stem + ".rg" + ".md" + ".bam" && EndsWithDotBam(marked) && Stem(marked) == stem + ".rg" + ".md" by {
      SubAccumulates(reheadered, ".md");
    }
    var split := Sub(marked, SplitSuffix);
    assert split == stem + ".rg" + ".md" + ".split" + ".bam" && EndsWithDotBam(split)
        && Stem(split) == stem + ".rg" + ".md" + ".split" by {
      SubAccumulates(marked, ".split");
    }
    assert Sub(split, VcfSuffix) == stem + ".rg" + ".md" + ".split" + ".bam.vcf";
  }

  /**
   * On an input ending in a match of `.bam` the suffixes accumulate: every
   * name keeps the stem of the one before it.
   */
  lemma ChainOnDotBam(input: Path, alreadySorted: bool)
    requires EndsWithDotBam(input)
    ensures var stem := Stem(input) + (if alreadySorted then "" else ".sorted");
      DeriveNames(input, alreadySorted)
        == Names(if alreadySorted then input else stem + ".bam",
                 stem + ".rg" + ".bam", stem + ".rg" + ".md" + ".bam",
                 stem + ".rg" + ".md" + ".split" + ".bam", stem + ".rg" + ".md" + ".split" + ".bam.vcf")
  {
    var sorted := if alreadySorted then input else Sub(input, SortedSuffix);
    if !alreadySorted {
      SubAccumulates(input, ".sorted");
    }
    NamesFromDotBam(sorted);
  }

  /** `sample.bam`, not yet sorted, leads to `sample.sorted.rg.md.split.bam.vcf`, not to `sample.bam.vcf`. */
  lemma SampleVcfName(input: Path)
    requires input == "sample.bam"
    ensures DeriveNames(input, false).vcf == "sample.sorted.rg.md.split.bam.vcf"
  {
    assert EndsWithDotBam(input) && Stem(input) == "sample";
    ChainOnDotBam(input, false);
    assert "sample" + ".sorted" + ".rg" + ".md" + ".split" + ".bam.vcf" == "sample.sorted.rg.md.split.bam.vcf" by {
      SampleSpelling();
    }
  }

  lemma SampleSpelling()
    ensures "sample" + ".sorted" + ".rg" + ".md" + ".split" + ".bam.vcf" == "sample.sorted.rg.md.split.bam.vcf"
  {
  }

  /** For an input ending in a match of `.bam`, every derivation lengthens the name it starts from. */
  lemma ChainLengthens(input: Path, alreadySorted: bool)
    requires EndsWithDotBam(input)
    ensures var n := DeriveNames(input, alreadySorted);
      && (if alreadySorted then n.sorted == input else |n.sorted| == |input| + 7)
      && |n.reheadered| == |n.sorted| + 3
      && |n.marked| == |n.reheadered| + 3
      && |n.split| == |n.marked| + 6
      && |n.vcf| == |n.split| + 4
  {
    ChainOnDotBam(input, alreadySorted);
  }

  /** The `.bam.vcf` derivation of a matching name ends in "vcf". */
  lemma VcfEndsInVcf(split: Path)
    requires EndsWithDotBam(split)
    ensures var vcf := Sub(split, VcfSuffix); |vcf| >= 3 && vcf[|vcf| - 3..] == "vcf"
  {
    var vcf := Sub(split, VcfSuffix);
    assert vcf == Stem(split) + VcfSuffix;
    assert vcf[|vcf| - 3..] == VcfSuffix[5..];
  }

  /** The sorted, reheadered, marked and split names still end in a match of `.bam`; the VCF name ends in "vcf". */
  lemma ChainEndings(input: Path, alreadySorted: bool)
    requires EndsWithDotBam(input)
    ensures var n := DeriveNames(input, alreadySorted);
      && EndsWithDotBam(n.sorted) && EndsWithDotBam(n.reheadered)
      && EndsWithDotBam(n.marked) && EndsWithDotBam(n.split)
      && |n.vcf| >= 3 && n.vcf[|n.vcf| - 3..] == "vcf"
  {
    var sorted := if alreadySorted then input else Sub(input, SortedSuffix);
    assert EndsWithDotBam(sorted) by {
      if !alreadySorted {
        SubAccumulates(input, ".sorted");
      }
    }
    var reheadered := Sub(sorted, RgSuffix);
    assert EndsWithDotBam(reheadered) by {
      SubAccumulates(sorted, ".rg");
    }
    var marked := Sub(reheadered, MdSuffix);
    assert EndsWithDotBam(marked) by {
      SubAccumulates(reheadered, ".md");
    }
    var split := Sub(marked, SplitSuffix);
    assert EndsWithDotBam(split) by {
      SubAccumulates(marked, ".split");
    }
    VcfEndsInVcf(split);
    assert DeriveNames(input, alreadySorted) == Names(sorted, reheadered, marked, split, Sub(split, VcfSuffix));
  }

  /**
   * Names that grow at every step and end in "m" (the BAM names) or "f" (the
   * VCF name) are pairwise distinct, and none is the metrics report.
   */
  lemma GrowingNamesDistinct(input: Path, alreadySorted: bool, n: Names)
    requires |input| >= 1 && input[|input| - 1] == 'm'
    requires if alreadySorted then n.sorted == input else |n.sorted| > |input|
    requires |n.reheadered| > |n.sorted| && |n.marked| > |n.reheadered|
    requires |n.split| > |n.marked| && |n.vcf| > |n.split|
    requires n.sorted[|n.sorted| - 1] == 'm' && n.reheadered[|n.reheadered| - 1] == 'm'
    requires n.marked[|n.marked| - 1] == 'm' && n.split[|n.split| - 1] == 'm'
    requires n.vcf[|n.vcf| - 1] == 'f'
    ensures var names := [input, n.reheadered, n.marked, n.split, n.vcf];
      && (forall i, j :: 0 <= i < j < |names| ==> names[i] != names[j])
      && (!alreadySorted ==> n.sorted !in names)
      && MetricsPath !in names && MetricsPath != n.sorted
  {
    assert MetricsPath[|MetricsPath| - 1] == 's';
  }

  /**
   * For an input ending in a match of `.bam` the input, sorted, reheadered,
   * marked, split and VCF names are pairwise distinct (the sorted name is the
   * input itself when the sort is skipped), and none is the metrics report.
   */
  lemma NamesDistinct(input: Path, alreadySorted: bool)
    requires EndsWithDotBam(input)
    ensures var n := DeriveNames(input, alreadySorted);
      var names := [input, n.reheadered, n.marked, n.split, n.vcf];
      && (forall i, j :: 0 <= i < j < |names| ==> names[i] != names[j])
      && (!alreadySorted ==> n.sorted !in names)
      && MetricsPath !in names && MetricsPath != n.sorted
  {
    var n := DeriveNames(input, alreadySorted);
    ChainLengthens(input, alreadySorted);
    ChainEndings(input, alreadySorted);
    assert n.vcf[|n.vcf| - 1] == n.vcf[|n.vcf| - 3..][2];
    GrowingNamesDistinct(input, alreadySorted, n);
  }

  /**
   * A newline-free input that does not end in a match of `.bam` keeps its
   * name through every stage: every stage writes over the input, and cleanup
   * then deletes it, the VCF included.
   */
  lemma OtherInputKeepsItsName(fs: set<Path>, input: Path, alreadySorted: bool)
    requires '\n' !in input && !EndsWithDotBam(input)
    ensures DeriveNames(input, alreadySorted) == Names(input, input, input, input, input)
    ensures input !in FinalFiles(fs, input, alreadySorted)
  {
    SubLeavesOtherNames(input, SortedSuffix);
    SubLeavesOtherNames(input, RgSuffix);
    SubLeavesOtherNames(input, MdSuffix);
    SubLeavesOtherNames(input, SplitSuffix);
    SubLeavesOtherNames(input, VcfSuffix);
  }

  // ---------------------------------------------------------------------
  // what is left on disk and what cleanup removes
  // ---------------------------------------------------------------------

  /**
   * Unsorted input ending in a match of `.bam`: the input (if it was a file),
   * the reheadered, split and VCF files and the metrics report survive; the
   * sorted and marked files do not; cleanup removes exactly those two.
   */
  lemma UnsortedRunKeepsInput(fs: set<Path>, input: Path)
    requires EndsWithDotBam(input)
    ensures var n := DeriveNames(input, false);
      && FinalFiles(fs, input, false)
         == fs - {n.sorted, n.marked} + {n.reheadered, MetricsPath, n.split, n.vcf}
      && (input in fs <==> input in FinalFiles(fs, input, false))
      && n.sorted !in FinalFiles(fs, input, false) && n.marked !in FinalFiles(fs, input, false)
      && Trace(fs, input, false) == Commands(input, false) + [Remove(n.sorted), Remove(n.marked)]
  {
    var n := DeriveNames(input, false);
    NamesDistinct(input, false);
    assert n.sorted != n.marked;
    RemovalsOfPair(n.sorted, n.marked, fs + Outputs(input, false));
  }

  /**
   * Already-sorted input ending in a match of `.bam`: the "sorted" name is the
   * input, so cleanup deletes the original input (if it was a file) along with
   * the marked file; the reheadered, split and VCF files and the metrics
   * report survive.
   */
  lemma SortedRunDeletesInput(fs: set<Path>, input: Path)
    requires EndsWithDotBam(input)
    ensures var n := DeriveNames(input, true);
      && FinalFiles(fs, input, true)
         == fs - {input, n.marked} + {n.reheadered, MetricsPath, n.split, n.vcf}
      && input !in FinalFiles(fs, input, true)
      && Trace(fs, input, true)
         == Commands(input, true) + (if input in fs then [Remove(input)] else []) + [Remove(n.marked)]
  {
    var n := DeriveNames(input, true);
    NamesDistinct(input, true);
    assert input != n.marked;
    RemovalsOfPair(input, n.marked, fs + Outputs(input, true));
    assert input in fs + Outputs(input, true) <==> input in fs;
  }
}
