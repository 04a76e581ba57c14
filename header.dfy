/**
 * The two pieces of header logic of the pipeline driver: the sort-state
 * decision over the header that pysam parses into a dictionary of sections,
 * and the sed expression that replaces every read-group line of the header
 * text before it is written back with `samtools reheader`.
 */
module BamHeader {

  datatype Option<T> = None | Some(value: T)

  /** A parsed header: section tag (`HD`, `SQ`, `RG`, ...) to the fields of that section. */
  type Header = map<string, map<string, string>>

  /** Dictionary subscription, with the `KeyError` of a missing key as `None`. */
  function Get<K, V>(m: map<K, V>, k: K): (r: Option<V>)
    ensures r.Some? <==> k in m
    ensures r.Some? ==> r.value == m[k]
  {
    if k in m then Some(m[k]) else None
  }

  /** `header[section][tag]`: either subscription may raise `KeyError`. */
  function Field(h: Header, section: string, tag: string): (r: Option<string>)
    ensures r.Some? <==> section in h && tag in h[section]
    ensures r.Some? ==> r.value == h[section][tag]
  {
    match Get(h, section)
    case None => None
    case Some(fields) => Get(fields, tag)
  }

  /**
   * `is_bam_sorted`: the `SO` field of the `HD` section is "coordinate". A
   * `KeyError` from either lookup is caught and answered with false.
   */
  function IsBamSorted(h: Header): (sorted: bool)
    ensures sorted <==> "HD" in h && "SO" in h["HD"] && h["HD"]["SO"] == "coordinate"
    ensures "HD" !in h ==> !sorted
  {
    match Field(h, "HD", "SO")
    case Some(so) => so == "coordinate"
    case None => false
  }

  /** The one read-group record every `@RG` line becomes (the separators are tab characters). */
  const ReadGroupLine: string := "@RG" + "\tID:GRPundef" + "\tSM:sample" + "\tLB:library" + "\tPL:platform"

  /** The line matches `^@RG`. */
  predicate StartsWithRg(line: string) {
    |line| >= 3 && line[..3] == "@RG"
  }

  /** The fixed record is itself a read-group line. */
  lemma ReadGroupLineIsRg()
    ensures StartsWithRg(ReadGroupLine)
  {
    assert ReadGroupLine[..3] == "@RG";
  }

  // The sed substitution on one line: the pattern is anchored at the line start
  // and its `.*` takes the rest of the line, so the whole line is replaced.
  function RewriteLine(line: string): (r: string)
    ensures StartsWithRg(r) <==> StartsWithRg(line)
  {
    ReadGroupLineIsRg();
    if StartsWithRg(line) then ReadGroupLine else line
  }

  /** sed's cycle over the header text, one line at a time. */
  function RewriteHeader(lines: seq<string>): (r: seq<string>)
    ensures |r| == |lines|
    ensures forall i :: 0 <= i < |lines| && !StartsWithRg(lines[i]) ==> r[i] == lines[i]
    ensures forall i :: 0 <= i < |lines| && StartsWithRg(lines[i]) ==> r[i] == ReadGroupLine
  {
    if lines == [] then [] else [RewriteLine(lines[0])] + RewriteHeader(lines[1..])
  }

  /** Rewriting a header that was already rewritten changes nothing. */
  lemma RewriteHeaderIdempotent(lines: seq<string>)
    ensures RewriteHeader(RewriteHeader(lines)) == RewriteHeader(lines)
  {
    var once := RewriteHeader(lines);
    var twice := RewriteHeader(once);
    forall i | 0 <= i < |lines|
      ensures twice[i] == once[i]
    {
      if StartsWithRg(lines[i]) {
        assert once[i] == ReadGroupLine;
        ReadGroupLineIsRg();
      }
    }
  }

  /** After the rewrite every read-group line of the header is the fixed record. */
  lemma RewrittenReadGroupsAreFixed(lines: seq<string>)
    ensures forall i :: 0 <= i < |lines| && StartsWithRg(RewriteHeader(lines)[i]) ==> RewriteHeader(lines)[i] == ReadGroupLine
    ensures forall line :: line in lines && StartsWithRg(line) ==> ReadGroupLine in RewriteHeader(lines)
  {
    var r := RewriteHeader(lines);
    forall line | line in lines && StartsWithRg(line)
      ensures ReadGroupLine in r
    {
      var i :| 0 <= i < |lines| && lines[i] == line;
      assert r[i] == ReadGroupLine;
    }
  }
}
