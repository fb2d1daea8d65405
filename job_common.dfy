/**
 * What the two mappers and the reducer share: loading the model-parameter files in
 * configure, and turning a map of log counts into parameter records.
 */
module JobCommon {
  import opened Wrappers
  import opened Collections
  import opened JavaText
  import opened ModelParameters
  import opened StringPairs
  import opened StaticUtil

  /** The file the reducer writes the total log alpha to; configure skips it. */
  const TotalLogAlphaFileName: string := "total_log_alpha.txt"

  /** One file of the model-parameters directory: its name and its lines. */
  datatype ParameterFile = ParameterFile(name: string, lines: seq<string>)

  /** Why configure failed: the file system could not be reached or listed, or a file did not read. */
  datatype ConfigureFailure =
    | FileSystemFailure(message: string)
    | ParameterFileFailure(error: ReadError)

  /** The lines of every listed file except the total-log-alpha file, in listing order. */
  function FilesToRead(listing: seq<ParameterFile>): (files: seq<seq<string>>)
    ensures |files| <= |listing|
    ensures forall f :: f in listing && f.name != TotalLogAlphaFileName ==> f.lines in files
    ensures forall lines :: lines in files ==> exists f :: f in listing && f.name != TotalLogAlphaFileName && f.lines == lines
  {
    if listing == [] then []
    else
      var rest := FilesToRead(listing[1..]);
      assert forall f :: f in listing[1..] ==> f in listing;
      if listing[0].name == TotalLogAlphaFileName then rest else [listing[0].lines] + rest
  }

  /**
   * The try block of configure: list the directory (an I/O failure is a parameter
   * here), read every file but the total-log-alpha file into the maps, and turn the
   * first exception into a recorded failure. The maps keep whatever was read before it.
   */
  method LoadModelParameters(nf: NumberFormat, listing: Result<seq<ParameterFile>, string>, maps: ParameterMaps)
    returns (loaded: ParameterMaps, failure: Option<ConfigureFailure>)
    ensures listing.Err? ==> loaded == maps && failure == Some(FileSystemFailure(listing.error))
    ensures listing.Ok? ==>
              var outcome := ReadFiles(nf, FilesToRead(listing.value), maps);
              && loaded == outcome.maps
              && (outcome.error.None? <==> failure.None?)
              && (outcome.error.Some? ==> failure == Some(ParameterFileFailure(outcome.error.value)))
  {
    if listing.Err? {
      return maps, Some(FileSystemFailure(listing.error));
    }
    var error;
    loaded, error := ReadParameterFiles(nf, FilesToRead(listing.value), maps);
    failure := if error.Some? then Some(ParameterFileFailure(error.value)) else None;
  }

  /* ---------- Emitting log counts ---------- */

  /**
   * `records` lists the present entries of `counts` as parameters of the given type,
   * each exactly once: (x, y) with value v becomes (type, x, y, v), and null values
   * are not emitted.
   */
  ghost predicate ListsCounts(records: seq<EMModelParameter>, counts: LogProbMap, parameterType: char)
  {
    && Distinct(records)
    && (forall j :: 0 <= j < |records| ==>
          && records[j].parameterType == parameterType
          && Get(counts, StringPair(records[j].state, records[j].target)) == Some(records[j].logCount))
    && (forall k :: k in counts && counts[k].Some? ==>
          EMModelParameter(parameterType, k.x, k.y, counts[k].value) in records)
  }

  /** outputLogCounts: one record per non-null entry, in the map's (unspecified) iteration order. */
  method OutputLogCounts(counts: LogProbMap, parameterType: char) returns (records: seq<EMModelParameter>)
    ensures ListsCounts(records, counts, parameterType)
  {
    records := [];
    var rest := counts.Keys;
    while rest != {}
      invariant rest <= counts.Keys
      invariant Distinct(records)
      invariant forall j :: 0 <= j < |records| ==>
                  && records[j].parameterType == parameterType
                  && StringPair(records[j].state, records[j].target) in counts.Keys - rest
                  && counts[StringPair(records[j].state, records[j].target)] == Some(records[j].logCount)
      invariant forall k :: k in counts.Keys - rest && counts[k].Some? ==>
                  EMModelParameter(parameterType, k.x, k.y, counts[k].value) in records
      decreases rest
    {
      var k :| k in rest;
      if counts[k].Some? {
        records := records + [EMModelParameter(parameterType, k.x, k.y, counts[k].value)];
      }
      rest := rest - {k};
    }
  }

  /** The emitted records are as many as the present entries of the map. */
  lemma ListsCountsLength(records: seq<EMModelParameter>, counts: LogProbMap, parameterType: char)
    requires ListsCounts(records, counts, parameterType)
    ensures |records| == |set k | k in counts && counts[k].Some?|
  {
    var present := set k | k in counts && counts[k].Some?;
    var keys := seq(|records|, j requires 0 <= j < |records| => StringPair(records[j].state, records[j].target));
    assert Distinct(keys);
    forall k
      ensures k in present <==> k in keys
    {
      if k in present {
        var j :| 0 <= j < |records| && records[j] == EMModelParameter(parameterType, k.x, k.y, counts[k].value);
        assert keys[j] == k;
      }
    }
    EnumerationLength(keys, present);
  }
}
