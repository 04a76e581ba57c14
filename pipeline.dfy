/**
 * The pipeline driver: `cleanup` and `main`. The filesystem is the set of
 * paths that exist as files; every external tool (samtools, Picard, GATK) is
 * an opaque command that creates the files it declares as output. The
 * commands are recorded, in the order issued, in a trace.
 */
module Pipeline {

  import opened FileNames
  import opened BamHeader

  /** The five external stages `main` runs. */
  datatype Stage = Sort | Reheader | MarkDuplicates | SplitNCigarReads | HaplotypeCaller

  /** A command issued by the driver: a stage reading one file and writing another, or an `rm -rf`. */
  datatype Event = Run(stage: Stage, input: Path, output: Path) | Remove(path: Path)

  /** The duplicate-marking report path, the same for every input (`M=output.metrics`). */
  const MetricsPath: Path := "output.metrics"

  /** The files a stage creates: its output, and for MarkDuplicates also the metrics report. */
  function Creates(stage: Stage, output: Path): set<Path>
  {
    if stage == MarkDuplicates then {output, MetricsPath} else {output}
  }

  /** The set of paths listed in a sequence. */
  function Listed(ps: seq<Path>): set<Path>
  {
    set p | p in ps
  }

  /**
   * The `rm -rf` commands `cleanup` issues when it walks `ps` over the
   * filesystem `fs`: one for each listed path that is still a file when the
   * loop reaches it, in list order.
   */
  function Removals(ps: seq<Path>, fs: set<Path>): seq<Event>
  {
    if ps == [] then []
    else
      var init := ps[..|ps| - 1];
      var last := ps[|ps| - 1];
      Removals(init, fs) + (if last in fs - Listed(init) then [Remove(last)] else [])
  }

  /** Cleanup of a two-path list: the first if it is a file, then the second if it is a file and not the first. */
  lemma RemovalsOfPair(a: Path, b: Path, fs: set<Path>)
    ensures Removals([a, b], fs)
         == (if a in fs then [Remove(a)] else []) + (if b in fs && b != a then [Remove(b)] else [])
  {
    assert [a, b][..1] == [a];
    assert [a][..0] == [];
    assert Listed([a]) == {a};
    assert Listed([]) == {};
    assert Removals([a], fs) == (if a in fs then [Remove(a)] else []);
  }

  /** The names `main` derives, each from the one before it. */
  datatype Names = Names(sorted: Path, reheadered: Path, marked: Path, split: Path, vcf: Path)

  /** The names derived from the sorted file's name, each from the one before it. */
  function NamesFrom(sorted: Path): (n: Names)
    ensures n.sorted == sorted
  {
    var reheadered := Sub(sorted, RgSuffix);
    var marked := Sub(reheadered, MdSuffix);
    var split := Sub(marked, SplitSuffix);
    Names(sorted, reheadered, marked, split, Sub(split, VcfSuffix))
  }

  /** The name chain of `main`; an already sorted input is its own "sorted" name. */
  function DeriveNames(input: Path, alreadySorted: bool): (n: Names)
    ensures alreadySorted ==> n.sorted == input
    ensures !alreadySorted ==> n.sorted == Sub(input, SortedSuffix)
  {
    NamesFrom(if alreadySorted then input else Sub(input, SortedSuffix))
  }

  /** The four stages that always run, in order, each reading the previous stage's output. */
  function StageCommands(n: Names): seq<Event>
  {
    [ Run(Reheader, n.sorted, n.reheadered),
      Run(MarkDuplicates, n.reheadered, n.marked),
      Run(SplitNCigarReads, n.marked, n.split),
      Run(HaplotypeCaller, n.split, n.vcf) ]
  }

  /** The files those four stages create. */
  function StageOutputs(n: Names): set<Path>
  {
    {n.reheadered, n.marked, MetricsPath, n.split, n.vcf}
  }

  /** The stage commands for the names `n`, in the order issued: the sort only when the input is not sorted. */
  function CommandsFor(input: Path, alreadySorted: bool, n: Names): seq<Event>
  {
    (if alreadySorted then [] else [Run(Sort, input, n.sorted)]) + StageCommands(n)
  }

  /** The stage commands of `main`. */
  function Commands(input: Path, alreadySorted: bool): seq<Event>
  {
    CommandsFor(input, alreadySorted, DeriveNames(input, alreadySorted))
  }

  /** The files the stage commands of `main` create. */
  function Outputs(input: Path, alreadySorted: bool): set<Path>
  {
    var n := DeriveNames(input, alreadySorted);
    (if alreadySorted then {} else {n.sorted}) + StageOutputs(n)
  }

  /** The filesystem after `main`, starting from `fs`: every output is created, then `[sorted, marked]` is cleaned up. */
  function FinalFiles(fs: set<Path>, input: Path, alreadySorted: bool): set<Path>
  {
    var n := DeriveNames(input, alreadySorted);
    fs + Outputs(input, alreadySorted) - {n.sorted, n.marked}
  }

  /** All commands of `main`, starting from `fs`: the stages, then cleanup's removals. */
  function Trace(fs: set<Path>, input: Path, alreadySorted: bool): seq<Event>
  {
    var n := DeriveNames(input, alreadySorted);
    Commands(input, alreadySorted) + Removals([n.sorted, n.marked], fs + Outputs(input, alreadySorted))
  }

  /** The working directory the driver acts on, and the commands it has issued so far. */
  class Workspace {
    var files: set<Path>
    var trace: seq<Event>

    constructor (files: set<Path>)
      ensures this.files == files && trace == []
    {
      this.files := files;
      trace := [];
    }

    /** Runs one external stage; its exit status is discarded, so it always counts as done. */
    method Issue(stage: Stage, input: Path, output: Path)
      modifies this
      ensures trace == old(trace) + [Run(stage, input, output)]
      ensures files == old(files) + Creates(stage, output)
    {
      trace := trace + [Run(stage, input, output)];
      files := files + Creates(stage, output);
    }

    /** `cleanup`: removes each listed path that is a file, skips the others, returns 0. */
    method Cleanup(listOfFiles: seq<Path>) returns (status: int)
      modifies this
      ensures status == 0
      ensures files == old(files) - Listed(listOfFiles)
      ensures trace == old(trace) + Removals(listOfFiles, old(files))
    {
      for i := 0 to |listOfFiles|
        invariant files == old(files) - Listed(listOfFiles[..i])
        invariant trace == old(trace) + Removals(listOfFiles[..i], old(files))
      {
        var afile := listOfFiles[i];
        assert listOfFiles[..i + 1][..i] == listOfFiles[..i];
        assert Listed(listOfFiles[..i + 1]) == Listed(listOfFiles[..i]) + {afile};
        if afile in files {
          trace := trace + [Remove(afile)];
          files := files - {afile};
        }
      }
      assert listOfFiles[..|listOfFiles|] == listOfFiles;
      status := 0;
    }

    /**
     * The stages of `main` after the sort decision: reheader, mark duplicates,
     * split N-cigar reads and call variants, each on the previous output.
     */
    method RunStages(sortedRnaBam: Path) returns (markedBam: Path, variantVcf: Path)
      modifies this
      ensures markedBam == NamesFrom(sortedRnaBam).marked
      ensures variantVcf == NamesFrom(sortedRnaBam).vcf
      ensures trace == old(trace) + StageCommands(NamesFrom(sortedRnaBam))
      ensures files == old(files) + StageOutputs(NamesFrom(sortedRnaBam))
    {
      var reheaderedRnaBam := Sub(sortedRnaBam, RgSuffix);
      Issue(Reheader, sortedRnaBam, reheaderedRnaBam);

      markedBam := Sub(reheaderedRnaBam, MdSuffix);
      Issue(MarkDuplicates, reheaderedRnaBam, markedBam);

      var splitRnaBam := Sub(markedBam, SplitSuffix);
      Issue(SplitNCigarReads, markedBam, splitRnaBam);

      variantVcf := Sub(splitRnaBam, VcfSuffix);
      Issue(HaplotypeCaller, splitRnaBam, variantVcf);
    }

    /**
     * `main`: sort unless the header says the input is coordinate-sorted,
     * run the later stages, clean up `[sorted, marked]`. Returns the exit
     * status and the VCF path it reports.
     */
    method RunPipeline(rnaBam: Path, header: Header) returns (status: int, variantVcf: Path)
      modifies this
      ensures status == 0
      ensures variantVcf == DeriveNames(rnaBam, IsBamSorted(header)).vcf
      ensures trace == old(trace) + Trace(old(files), rnaBam, IsBamSorted(header))
      ensures files == FinalFiles(old(files), rnaBam, IsBamSorted(header))
    {
      ghost var n := DeriveNames(rnaBam, IsBamSorted(header));
      var sortedRnaBam: Path;
      if IsBamSorted(header) {
        sortedRnaBam := rnaBam;
      } else {
        sortedRnaBam := Sub(rnaBam, SortedSuffix);
        Issue(Sort, rnaBam, sortedRnaBam);
      }
      var markedBam;
      markedBam, variantVcf := RunStages(sortedRnaBam);
      assert NamesFrom(sortedRnaBam) == n;
      assert trace == old(trace) + Commands(rnaBam, IsBamSorted(header));
      assert files == old(files) + Outputs(rnaBam, IsBamSorted(header));
      ghost var staged := files;
      ghost var stagedTrace := trace;
      var _ := Cleanup([sortedRnaBam, markedBam]);
      assert Listed([sortedRnaBam, markedBam]) == {sortedRnaBam, markedBam};
      assert trace == stagedTrace + Removals([n.sorted, n.marked], staged);
      status := 0;
    }
  }
}
