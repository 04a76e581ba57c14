# RNA-seq variant calling driver, modelled in Dafny

`rna_variant_calling.py` is a glue script. It takes a STAR-aligned RNA BAM file and runs the GATK
RNA-seq variant-calling steps as external commands: samtools sort (skipped when the header says the
file is coordinate-sorted), samtools reheader with a sed-rewritten read group, Picard MarkDuplicates,
GATK SplitNCigarReads and GATK HaplotypeCaller. It then deletes the sorted and duplicate-marked
intermediates. This project models the script's own logic and proves what it guarantees:

- `filenames.dfy` (module `FileNames`) models `re.sub(r'.bam$', suffix, name)`, which derives every
  file name. The unescaped dot matches any character except a newline. A name that does not end in
  a match comes back unchanged.
- `header.dfy` (module `BamHeader`) contains two pieces of header logic:
  - `is_bam_sorted`, over the header as a map of sections to fields, with `KeyError` answered as false;
  - the sed expression that replaces every `@RG` line with one fixed read-group record.
- `pipeline.dfy` (module `Pipeline`) holds the driver, in class `Workspace`. The class has two
  fields: the filesystem, as the set of paths that are files, and the trace of commands issued so far.
  - `Cleanup` is the `cleanup` loop.
  - `RunPipeline` is `main`, proved against the specification functions `DeriveNames`, `Commands`,
    `FinalFiles` and `Trace`.
  - Each external tool is an opaque step that creates the file it names as output. For
    MarkDuplicates that is also `output.metrics`.
- `facts.dfy` (module `PipelineFacts`) proves properties of these specification functions: stage
  order, the sort decision, accumulation and distinctness of the names, what cleanup removes, and
  what is left on disk.

Two consequences of the code are worth stating, because they are easy to miss:

- **Names accumulate.** Every name is derived from the previous stage's name, not from the input
  (lines 69, 76, 82, 88). So a `sample.bam` that is not yet sorted leads to
  `sample.sorted.rg.md.split.bam.vcf` (`PipelineFacts.ChainOnDotBam`, `PipelineFacts.SampleVcfName`).
- **The already-sorted branch deletes the input.** In that branch the "sorted" name is the input
  path itself (line 60), so `cleanup([sorted_rna_bam, marked_bam])` on line 94 deletes the original
  input (`PipelineFacts.SortedRunDeletesInput`).

## Model

| member | source | states |
|---|---|---|
| FileNames.EndsWithDotBam | rna_variant_calling.py:62 | the pattern `.bam$` matches at the end of a name: one non-newline character followed by "bam" |
| FileNames.Stem | rna_variant_calling.py:62 | the part of a name the match does not cover, four characters shorter than the name |
| FileNames.Sub | rna_variant_calling.py:62 | `re.sub(r'.bam$', suffix, name)`, used at lines 62, 69, 76, 82 and 88; it has no contract of its own and is characterised by `SubReplacesDotBam` and `SubLeavesOtherNames` |
| FileNames.SubReplacesDotBam | rna_variant_calling.py:62 | a name made of a stem, one non-newline character and "bam" becomes the stem followed by the suffix |
| FileNames.SubLeavesOtherNames | rna_variant_calling.py:62 | a newline-free name not ending in a match of `.bam` is returned unchanged |
| FileNames.SubLengthens | rna_variant_calling.py:62-88 | on a matching name the result has length `|name| - 4 + |suffix|`, so each of the five suffixes (all longer than four characters) strictly lengthens the name |
| FileNames.SubAccumulates | rna_variant_calling.py:62-88 | a suffix `x + ".bam"` gives the old stem followed by `x` and ".bam": a name that still ends in a match, whose stem is the old stem followed by `x` |
| BamHeader.Field | rna_variant_calling.py:36 | `header[section][tag]` is defined exactly when both keys are present, and then is that field |
| BamHeader.IsBamSorted | rna_variant_calling.py:32-41 | true iff the header has an `HD` section whose `SO` field is "coordinate"; a missing `HD` or `SO` gives false, not an error |
| BamHeader.RewriteLine | rna_variant_calling.py:70 | the sed substitution on one line keeps whether the line starts with `@RG` |
| BamHeader.RewriteHeader | rna_variant_calling.py:70 | the rewrite keeps the line count, leaves every line not starting with `@RG` unchanged and turns every `@RG` line into `@RG<TAB>ID:GRPundef<TAB>SM:sample<TAB>LB:library<TAB>PL:platform` |
| BamHeader.RewriteHeaderIdempotent | rna_variant_calling.py:70 | rewriting twice equals rewriting once |
| BamHeader.RewrittenReadGroupsAreFixed | rna_variant_calling.py:70 | after the rewrite every read-group line is the fixed record, and the record is present whenever the header had a read group |
| Pipeline.Creates | rna_variant_calling.py:64-91 | an external stage creates its output file, and MarkDuplicates also `output.metrics` (line 77); stated through `Workspace.Issue` and `FinalFiles` |
| Pipeline.Removals | rna_variant_calling.py:45-48 | the `rm -rf` commands of `cleanup`, one per listed path that is still a file when the loop reaches it, in list order; characterised by `RemovalsAreListedFiles`, `RemovalsAreDistinct` and `RemovalsOfAbsentPaths` |
| Pipeline.RemovalsOfPair | rna_variant_calling.py:43-50 | cleanup of `[a, b]` removes `a` if it is a file, then `b` if it is a file and not `a` |
| Pipeline.NamesFrom | rna_variant_calling.py:69-88 | the chain of names derived from the sorted name starts at that name |
| Pipeline.DeriveNames | rna_variant_calling.py:57-88 | the "sorted" name is the input when it is already sorted, and the `.sorted.bam` derivation of it otherwise |
| Pipeline.Commands | rna_variant_calling.py:57-91 | the stage commands of `main` in the order issued; `RunPipeline` is proved against it, and `SortIssuedUnlessCoordinateSorted` and `StagesChain` state its order and chaining |
| Pipeline.FinalFiles | rna_variant_calling.py:57-94 | the filesystem after `main`: every stage output created, then the sorted and marked names removed; `RunPipeline` is proved against it, and `UnsortedRunKeepsInput` and `SortedRunDeletesInput` state what survives |
| Pipeline.Trace | rna_variant_calling.py:57-94 | every command of `main`: the stage commands followed by cleanup's removals of `[sorted, marked]`; `RunPipeline` is proved against it |
| Pipeline.Workspace.constructor | rna_variant_calling.py:53 | the driver starts from a given filesystem with no command issued |
| Pipeline.Workspace.Issue | rna_variant_calling.py:64-91 | an external stage is recorded in the trace and creates its output (and the metrics report for MarkDuplicates); its exit status is ignored |
| Pipeline.Workspace.Cleanup | rna_variant_calling.py:43-50 | `cleanup` returns 0, leaves exactly the old files minus the listed paths, and issues the removals of `Removals` in list order |
| Pipeline.Workspace.RunStages | rna_variant_calling.py:68-91 | reheader, MarkDuplicates, SplitNCigarReads and HaplotypeCaller are issued in order on the derived names, and their outputs are created |
| Pipeline.Workspace.RunPipeline | rna_variant_calling.py:53-96 | `main` returns 0 and reports the derived VCF name; its trace is the stage commands followed by cleanup's removals, and its final filesystem is `FinalFiles` |
| PipelineFacts.RemovalsAreListedFiles | rna_variant_calling.py:43-50 | cleanup removes only listed paths that are files, and removes every listed path that is a file |
| PipelineFacts.RemovalsAreDistinct | rna_variant_calling.py:43-50 | no path is removed twice, even when listed twice |
| PipelineFacts.RemovalsOfAbsentPaths | rna_variant_calling.py:45-46 | a list none of whose paths is a file makes cleanup issue nothing |
| PipelineFacts.CleanupIdempotent | rna_variant_calling.py:43-50 | a second cleanup on the filesystem the first one left issues nothing and changes nothing |
| PipelineFacts.SortIssuedUnlessCoordinateSorted | rna_variant_calling.py:57-66 | no sort after the first command; the first command is a sort iff the header is not coordinate-sorted; that sort reads the input and writes its `.sorted.bam` name; otherwise the "sorted" name is the input |
| PipelineFacts.CommandsForChain | rna_variant_calling.py:57-91 | for any names, the commands are all stage runs in the order (sort), reheader, MarkDuplicates, SplitNCigarReads, HaplotypeCaller; each reads the previous output and the last writes the VCF |
| PipelineFacts.StagesChain | rna_variant_calling.py:57-91 | the commands of `main` run the stages in that order; the first reads the input, each later one reads the previous output, and the last writes the derived VCF name |
| PipelineFacts.NamesFromDotBam | rna_variant_calling.py:69-88 | from a matching sorted name the names are the stem followed by `.rg.bam`, `.rg.md.bam`, `.rg.md.split.bam` and `.rg.md.split.bam.vcf` |
| PipelineFacts.ChainOnDotBam | rna_variant_calling.py:57-88 | from a matching input every name keeps the stem of the one before it, with `.sorted` inserted only when the sort runs |
| PipelineFacts.SampleVcfName | rna_variant_calling.py:62-88 | unsorted `sample.bam` leads to `sample.sorted.rg.md.split.bam.vcf` |
| PipelineFacts.VcfEndsInVcf | rna_variant_calling.py:88 | the `.bam.vcf` derivation of a matching name ends in "vcf" |
| PipelineFacts.ChainEndings | rna_variant_calling.py:62-88 | the sorted, reheadered, marked and split names still end in a match of `.bam`; the VCF name ends in "vcf" |
| PipelineFacts.ChainLengthens | rna_variant_calling.py:62-88 | each derivation lengthens the name it starts from, by 7, 3, 3, 6 and 4 characters |
| PipelineFacts.GrowingNamesDistinct | rna_variant_calling.py:57-88 | names that each grow on the one before and end in "m" or "f" are pairwise distinct and none is `output.metrics` |
| PipelineFacts.NamesDistinct | rna_variant_calling.py:57-88 | the input, sorted, reheadered, marked, split and VCF names are pairwise distinct (sorted is the input when the sort is skipped), and none is `output.metrics` |
| PipelineFacts.OtherInputKeepsItsName | rna_variant_calling.py:62-94 | an input not ending in a match of `.bam` is every stage's input and output name, and cleanup then deletes it |
| PipelineFacts.UnsortedRunKeepsInput | rna_variant_calling.py:57-96 | unsorted matching input: the input, reheadered, split and VCF files and `output.metrics` survive, the sorted and marked files do not, and cleanup removes exactly those two |
| PipelineFacts.SortedRunDeletesInput | rna_variant_calling.py:57-96 | already-sorted matching input: cleanup deletes the original input (if it was a file) and the marked file; the reheadered, split and VCF files and `output.metrics` survive |

## Left out

- Argument parsing with argparse (lines 25-30): the input path is a parameter of `RunPipeline`.
- Opening the BAM file with pysam (line 34): the parsed header is a parameter. Exceptions raised for
  unreadable or missing files are not modelled.
- What samtools, Picard and GATK compute. Each is an opaque step that creates its output file
  (`Workspace.Issue`). The BAM index that MarkDuplicates writes for `CREATE_INDEX=true` is not
  modelled as a created file.
- Shell semantics: `shlex.split`, the `os.system` pipe, and `>` truncating its target before
  samtools reads it when the two names coincide. Every path is assumed free of whitespace and of
  shell quote characters. `shlex.split('rm -rf ' + afile)` (lines 47-48) would split such a path
  into several arguments and delete other files, so `Workspace.Cleanup` and
  `RemovalsAreListedFiles` hold only for such paths.
- Commands that cannot be started: `subprocess.call` raises `FileNotFoundError` when `samtools`,
  `java` or `rm` is missing (lines 48, 66, 79, 85, 91), and that ends `main`. The model assumes
  every command starts. A started command's exit status is discarded, as in the source.
- `rm -rf` failures, and paths that exist but are not regular files. `os.path.isfile` is modelled
  as membership in the set of files.
- `print` output (lines 59, 65, 71, 78, 84, 90, 93, 95).
- FileNames.Sub: Python's `$` also matches just before a final newline. The model treats paths as
  newline-free, so a name ending in a newline is not modelled.
- FileNames.Sub: the suffix is inserted as written. `re.sub` expands backslash escapes in templates,
  but none of the five templates contains a backslash.
- The hard-coded tool and reference paths (lines 21-24) play no part in the model.
- Two runs racing on the shared `output.metrics` path: concurrency is not modelled.
