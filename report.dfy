/** The verdicts: `check_media_job` loads one media's manifest, checks every
    chunk and records whether the media passed together with its failures;
    `check_medias_in_csv_file` is meant to do the same for the two locators
    of each CSV row and append both verdicts to the row; as written it
    raises before any row is written, and both forms are modelled. Writing the output files
    and looking up the job id are left to the caller: the record or the
    row that would be written is returned instead. */
module Report {
  import opened Wrappers
  import opened SmoothManifest
  import opened Loader
  import opened Resolver
  import opened Engine

  /** The job's input dictionary: `url` is required, the other keys are
      read with `data.get` and may be absent. */
  datatype JobData = JobData(url: string, cdn: Option<string>, mediaKey: Option<string>, streamableId: Option<string>)

  /** The CSV row `check_media_job` writes: the input fields, the verdict
      and, only for a failing media, its failures. */
  datatype JobRecord = JobRecord(
    url: string, cdn: Option<string>, mediaKey: Option<string>, streamableId: Option<string>,
    result: bool, errors: Option<seq<ProbeResult>>)

  /** What aborts a job or a row before a verdict is reached. */
  datatype JobError =
    | LoadFailed(loadError: LoadError)          // raised by get_manifest
    | CheckFailed(checkError: CheckError)       // raised while naming chunks
    | MissingColumn(column: nat)                // row[i] raised IndexError
    | NotALocator(column: nat)                  // row[i] is an appended verdict, not a string
    | WrongArgumentCount(callee: string)        // a call with too few arguments raised TypeError

  /** `data['result'] = len(errors) < 1` and `data['errors'] = errors` only
      when the result is false. */
  function Verdict(data: JobData, errors: seq<ProbeResult>): JobRecord
  {
    var passed := |errors| < 1;
    JobRecord(data.url, data.cdn, data.mediaKey, data.streamableId, passed, if passed then None else Some(errors))
  }

  /** What `check_media_job` records for a job, or what aborts it. */
  function JobOutcome(data: JobData, fetch: string -> Option<Manifest>, readLocal: string -> Option<Manifest>, probe: string -> Response): Result<JobRecord, JobError>
  {
    match Load(data.url, fetch, readLocal)
    case Err(e) => Err(LoadFailed(e))
    case Ok(loaded) =>
      match AllFailures(loaded.baseUrl, loaded.manifest, probe)
      case Err(e) => Err(CheckFailed(e))
      case Ok(errors) => Ok(Verdict(data, errors))
  }

  /** `check_media_job`: load, check every stream and quality, record. */
  method CheckMediaJob(data: JobData, fetch: string -> Option<Manifest>, readLocal: string -> Option<Manifest>, probe: string -> Response)
    returns (r: Result<JobRecord, JobError>)
    ensures r == JobOutcome(data, fetch, readLocal, probe)
  {
    var loaded := GetManifest(data.url, fetch, readLocal);
    if loaded.Err? {
      return Err(LoadFailed(loaded.error));
    }
    var errors := CheckAllStreamsAndQualities(loaded.value.baseUrl, loaded.value.manifest, probe);
    if errors.Err? {
      return Err(CheckFailed(errors.error));
    }
    var passed := |errors.value| < 1;
    var attached: Option<seq<ProbeResult>> := None;
    if !passed {
      attached := Some(errors.value);
    }
    r := Ok(JobRecord(data.url, data.cdn, data.mediaKey, data.streamableId, passed, attached));
  }

  // ---------------------------------------------------------------------
  // The CSV rows
  // ---------------------------------------------------------------------

  /** A cell of a CSV row: a field read from the file or an appended
      verdict. */
  datatype Cell = Text(text: string) | Flag(flag: bool)

  /** `len(check_all_streams_and_qualities(url, manifest)) == 0` for the
      locator in `row[column]`. */
  function LocatorVerdict(row: seq<Cell>, column: nat, fetch: string -> Option<Manifest>, readLocal: string -> Option<Manifest>, probe: string -> Response): Result<bool, JobError>
  {
    if column >= |row| then Err(MissingColumn(column))
    else if !row[column].Text? then Err(NotALocator(column))
    else
      match Load(row[column].text, fetch, readLocal)
      case Err(e) => Err(LoadFailed(e))
      case Ok(loaded) =>
        match AllFailures(loaded.baseUrl, loaded.manifest, probe)
        case Err(e) => Err(CheckFailed(e))
        case Ok(errors) => Ok(|errors| == 0)
  }

  /** One row of `check_medias_in_csv_file` with both calls given the
      arguments their definitions take: the first locator's verdict is
      appended, then the locator now at index 1 is checked and its verdict
      appended. */
  function CsvRowOutcome(row: seq<string>, fetch: string -> Option<Manifest>, readLocal: string -> Option<Manifest>, probe: string -> Response): Result<seq<Cell>, JobError>
  {
    var cells := seq(|row|, i requires 0 <= i < |row| => Text(row[i]));
    match LocatorVerdict(cells, 0, fetch, readLocal, probe)
    case Err(e) => Err(e)
    case Ok(first) =>
      var once := cells + [Flag(first)];
      match LocatorVerdict(once, 1, fetch, readLocal, probe)
      case Err(e) => Err(e)
      case Ok(second) => Ok(once + [Flag(second)])
  }

  /** One row of `check_medias_in_csv_file` as the source writes it:
      `print_manifest_info(manifest)` leaves out the `url` argument that
      function requires, so once `row[0]` has loaded the call raises
      TypeError and no verdict is ever appended. */
  function CsvRowOutcomeAsWritten(row: seq<string>, fetch: string -> Option<Manifest>, readLocal: string -> Option<Manifest>): Result<seq<Cell>, JobError>
  {
    if |row| == 0 then Err(MissingColumn(0))
    else
      match Load(row[0], fetch, readLocal)
      case Err(e) => Err(LoadFailed(e))
      case Ok(_) => Err(WrongArgumentCount("print_manifest_info"))
  }

  /** The corrected check of `row[column]`, step by step. */
  method CheckLocator(row: seq<Cell>, column: nat, fetch: string -> Option<Manifest>, readLocal: string -> Option<Manifest>, probe: string -> Response)
    returns (r: Result<bool, JobError>)
    ensures r == LocatorVerdict(row, column, fetch, readLocal, probe)
  {
    if column >= |row| {
      return Err(MissingColumn(column));
    }
    if !row[column].Text? {
      return Err(NotALocator(column));
    }
    var loaded := GetManifest(row[column].text, fetch, readLocal);
    if loaded.Err? {
      return Err(LoadFailed(loaded.error));
    }
    var errors := CheckAllStreamsAndQualities(loaded.value.baseUrl, loaded.value.manifest, probe);
    if errors.Err? {
      return Err(CheckFailed(errors.error));
    }
    r := Ok(|errors.value| == 0);
  }

  /** The corrected body of the row loop: `row.append` twice. */
  method CheckCsvRow(row: seq<string>, fetch: string -> Option<Manifest>, readLocal: string -> Option<Manifest>, probe: string -> Response)
    returns (r: Result<seq<Cell>, JobError>)
    ensures r == CsvRowOutcome(row, fetch, readLocal, probe)
  {
    var cells := seq(|row|, i requires 0 <= i < |row| => Text(row[i]));
    var first := CheckLocator(cells, 0, fetch, readLocal, probe);
    if first.Err? {
      return Err(first.error);
    }
    cells := cells + [Flag(first.value)];
    var second := CheckLocator(cells, 1, fetch, readLocal, probe);
    if second.Err? {
      return Err(second.error);
    }
    cells := cells + [Flag(second.value)];
    r := Ok(cells);
  }

  /** The rows written to `<csv_file>_out` before the loop ends, and the
      exception that ended it early, if any. */
  datatype FileRun = FileRun(written: seq<seq<Cell>>, aborted: Option<JobError>)

  /** `for row in csv_reader`: each row is written as soon as it is done;
      the first exception ends the loop, leaving the rows already written. */
  function CsvFileOutcome(rows: seq<seq<string>>, fetch: string -> Option<Manifest>, readLocal: string -> Option<Manifest>, probe: string -> Response): FileRun
    decreases |rows|
  {
    if rows == [] then FileRun([], None)
    else
      match CsvRowOutcome(rows[0], fetch, readLocal, probe)
      case Err(e) => FileRun([], Some(e))
      case Ok(out) =>
        var rest := CsvFileOutcome(rows[1..], fetch, readLocal, probe);
        FileRun([out] + rest.written, rest.aborted)
  }

  /** The file loop as the source writes it, each row going through
      CsvRowOutcomeAsWritten. */
  function CsvFileOutcomeAsWritten(rows: seq<seq<string>>, fetch: string -> Option<Manifest>, readLocal: string -> Option<Manifest>): FileRun
    decreases |rows|
  {
    if rows == [] then FileRun([], None)
    else
      match CsvRowOutcomeAsWritten(rows[0], fetch, readLocal)
      case Err(e) => FileRun([], Some(e))
      case Ok(out) =>
        var rest := CsvFileOutcomeAsWritten(rows[1..], fetch, readLocal);
        FileRun([out] + rest.written, rest.aborted)
  }

  /** `check_medias_in_csv_file` with the corrected row body. */
  method CheckCsvFile(rows: seq<seq<string>>, fetch: string -> Option<Manifest>, readLocal: string -> Option<Manifest>, probe: string -> Response)
    returns (written: seq<seq<Cell>>, aborted: Option<JobError>)
    ensures FileRun(written, aborted) == CsvFileOutcome(rows, fetch, readLocal, probe)
  {
    written := [];
    var i := 0;
    while i < |rows|
      invariant 0 <= i <= |rows|
      invariant CsvFileOutcome(rows, fetch, readLocal, probe) ==
        FileRun(written + CsvFileOutcome(rows[i..], fetch, readLocal, probe).written, CsvFileOutcome(rows[i..], fetch, readLocal, probe).aborted)
    {
      var out := CheckCsvRow(rows[i], fetch, readLocal, probe);
      assert rows[i..][1..] == rows[i + 1..];
      if out.Err? {
        return written, Some(out.error);
      }
      written := written + [out.value];
      i := i + 1;
    }
    aborted := None;
  }

  // ---------------------------------------------------------------------
  // Properties
  // ---------------------------------------------------------------------

  /** The record says the media passed exactly when there is no failure,
      attaches the failures exactly when it did not, and carries the job's
      own fields. */
  lemma VerdictMeaning(data: JobData, errors: seq<ProbeResult>)
    ensures Verdict(data, errors).result <==> errors == []
    ensures Verdict(data, errors).errors.None? <==> Verdict(data, errors).result
    ensures !Verdict(data, errors).result ==> Verdict(data, errors).errors == Some(errors)
    ensures var r := Verdict(data, errors);
      r.url == data.url && r.cdn == data.cdn && r.mediaKey == data.mediaKey && r.streamableId == data.streamableId
  {
  }

  /** A job is recorded as passing exactly when its manifest loads and
      every chunk of every (stream, quality) pair could be named and
      answered 200. */
  lemma JobPasses(data: JobData, fetch: string -> Option<Manifest>, readLocal: string -> Option<Manifest>, probe: string -> Response)
    ensures (JobOutcome(data, fetch, readLocal, probe).Ok? && JobOutcome(data, fetch, readLocal, probe).value.result) <==>
      Load(data.url, fetch, readLocal).Ok? &&
      var l := Load(data.url, fetch, readLocal).value;
      forall si, qi :: 0 <= si < |l.manifest.streams| && 0 <= qi < |l.manifest.streams[si].qualities| ==>
        PairPasses(l.baseUrl, l.manifest.streams[si], qi, probe)
  {
    var loaded := Load(data.url, fetch, readLocal);
    if loaded.Ok? {
      AllFailuresPass(loaded.value.baseUrl, loaded.value.manifest, probe);
    }
  }

  /** A failing record lists at least one failure, and each listed failure
      is a probe of the media's chunks that did not answer 200. */
  lemma JobFailuresAreFailedProbes(data: JobData, fetch: string -> Option<Manifest>, readLocal: string -> Option<Manifest>, probe: string -> Response, x: ProbeResult)
    requires JobOutcome(data, fetch, readLocal, probe).Ok?
    requires JobOutcome(data, fetch, readLocal, probe).value.errors.Some?
    ensures JobOutcome(data, fetch, readLocal, probe).value.errors.value != []
    ensures x in JobOutcome(data, fetch, readLocal, probe).value.errors.value ==>
      x.status != Success &&
      var l := Load(data.url, fetch, readLocal).value;
      exists si, qi :: 0 <= si < |l.manifest.streams| && 0 <= qi < |l.manifest.streams[si].qualities| &&
        Probed(l.baseUrl, l.manifest.streams[si], qi, probe, x)
  {
    var l := Load(data.url, fetch, readLocal).value;
    AllFailuresAreFailedProbes(l.baseUrl, l.manifest, probe, x);
  }

  /** A corrected row gains exactly two cells, the verdicts for `row[0]` and
      `row[1]` in that order, each true exactly when that locator's check
      found no failure; a row with a single field fails on its second
      lookup, which finds the first verdict instead of a locator. */
  lemma CsvRowAppendsVerdicts(row: seq<string>, fetch: string -> Option<Manifest>, readLocal: string -> Option<Manifest>, probe: string -> Response)
    ensures CsvRowOutcome(row, fetch, readLocal, probe).Ok? ==>
      |row| >= 2 &&
      var out := CsvRowOutcome(row, fetch, readLocal, probe).value;
      |out| == |row| + 2 &&
      (forall i :: 0 <= i < |row| ==> out[i] == Text(row[i])) &&
      out[|row|] == Flag(Passes(row[0], fetch, readLocal, probe)) &&
      out[|row| + 1] == Flag(Passes(row[1], fetch, readLocal, probe))
    ensures |row| == 1 && Passes(row[0], fetch, readLocal, probe) ==>
      CsvRowOutcome(row, fetch, readLocal, probe) == Err(NotALocator(1))
  {
  }

  /** The locator loads and its check aborts nowhere and fails nowhere. */
  predicate Passes(url: string, fetch: string -> Option<Manifest>, readLocal: string -> Option<Manifest>, probe: string -> Response)
  {
    Load(url, fetch, readLocal).Ok? &&
    AllFailures(Load(url, fetch, readLocal).value.baseUrl, Load(url, fetch, readLocal).value.manifest, probe) == Ok([])
  }

  /** As written, no row ever gains a verdict: either loading `row[0]`
      raises, or the call right after it does. */
  lemma CsvRowAsWrittenNeverAppends(row: seq<string>, fetch: string -> Option<Manifest>, readLocal: string -> Option<Manifest>)
    ensures CsvRowOutcomeAsWritten(row, fetch, readLocal).Err?
    ensures |row| > 0 && Load(row[0], fetch, readLocal).Ok? ==>
      CsvRowOutcomeAsWritten(row, fetch, readLocal) == Err(WrongArgumentCount("print_manifest_info"))
  {
  }

  /** As written, a non-empty CSV file produces no output row at all. */
  lemma {:induction false} CsvFileAsWrittenWritesNothing(rows: seq<seq<string>>, fetch: string -> Option<Manifest>, readLocal: string -> Option<Manifest>)
    ensures CsvFileOutcomeAsWritten(rows, fetch, readLocal).written == []
    ensures rows != [] <==> CsvFileOutcomeAsWritten(rows, fetch, readLocal).aborted.Some?
  {
    if rows != [] {
      CsvRowAsWrittenNeverAppends(rows[0], fetch, readLocal);
    }
  }

  /** With the corrected body, the output holds, in order, the finished
      rows of a prefix of the input, and the loop ends early exactly when
      the row after that prefix raises. */
  lemma {:induction false} CsvFileWritesPrefix(rows: seq<seq<string>>, fetch: string -> Option<Manifest>, readLocal: string -> Option<Manifest>, probe: string -> Response)
    ensures var run := CsvFileOutcome(rows, fetch, readLocal, probe);
      |run.written| <= |rows| &&
      (forall k :: 0 <= k < |run.written| ==> CsvRowOutcome(rows[k], fetch, readLocal, probe) == Ok(run.written[k])) &&
      (run.aborted.None? <==> |run.written| == |rows|) &&
      (run.aborted.Some? ==> CsvRowOutcome(rows[|run.written|], fetch, readLocal, probe) == Err(run.aborted.value))
    decreases |rows|
  {
    if rows != [] {
      CsvFileWritesPrefix(rows[1..], fetch, readLocal, probe);
    }
  }
}
