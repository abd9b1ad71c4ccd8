# smoothchecker, verified model

smoothchecker checks that every chunk of a Smooth Streaming presentation
can be downloaded. It loads the presentation's manifest (`get_manifest`),
expands each stream's `Url` template into one URL per chunk and quality
level (`get_chunk_quality_string`, `get_chunk_name_string`), sends a HEAD
request to each (`check_single_chunk`), keeps the `(url, status)` pairs
whose status is not 200 (`check_chunks`), and gathers them over every
stream and every quality level (`check_all_streams_and_qualities`). A media
job passes when nothing was gathered (`check_media_job`). For a CSV file of
locator pairs (`check_medias_in_csv_file`), the evident intent is to append
two such verdicts to each row. As the source is written, that loop writes
nothing at all (see "Findings"); the model holds both the loop as written
and a corrected loop that appends the two verdicts.

The model is in Dafny and has these modules:

- `Wrappers` holds `Option` and `Result`.
- `Strings` models the Python string operations the checker uses:
  - ASCII `lower`;
  - `startswith` and `endswith`;
  - `rfind`, with its -1 when nothing is found;
  - `s[:k]`, where a negative `k` counts from the end;
  - `replace`, left to right and non-overlapping;
  - `split('/')[0]` and `split('/')[1]`, the latter with its IndexError;
  - `str(int)`, plus a parser that reads it back.
- `SmoothManifest` is the manifest as typed values.
- `Loader` is `get_manifest`: the fetch URL, the base URL, the version check and the `Clip` refinement. `Load` and `GetManifest` cut the base URL as the source does, including its case-sensitive `rfind` (see "Findings"). `LoadCorrected` is the same load with the corrected cut. The job and the CSV verdicts use `Load`, so they probe the base the program probes.
- `Resolver` holds the two segment builders, the URL join and the exception mapping of `check_single_chunk`.
- `Engine` holds `check_chunks` and `check_all_streams_and_qualities`:
  - methods whose loops mirror the source;
  - the specification functions those methods are proved against;
  - lemmas about those functions.
- `Report` holds `check_media_job` and the row loop of `check_medias_in_csv_file`.

Three things the source gets from outside are parameters that map their
input to a result:

- fetching a URL, `string -> Option<Manifest>`;
- reading a local file, `string -> Option<Manifest>`;
- the HEAD request, `string -> Response`.

Here `None` stands for a failed download, write or parse.

## Model

| member | source | states |
|---|---|---|
| Loader.StrippedBaseAsWritten | smoothchecker.py:57-58 | The source's cut always returns a prefix of the locator. It returns the locator unchanged exactly when the locator does not end in a manifest segment in any letter case. Its exact value on the remaining locators is given by three lemmas: `StrippedBaseOnCapitalised` for those ending in `/Manifest`, `StrippedBaseAsWrittenDropsOneChar` for those where `/Manifest` occurs nowhere, and `StrippedBaseAsWrittenCutsAtLast` for those where it occurs earlier. |
| Loader.FetchUrlNormalises | smoothchecker.py:53-55 | The fetch URL is the locator unchanged exactly when its lower-cased form ends in `/manifest`, `.ismc` or `.csm`; otherwise it is the locator plus `/Manifest`. Either way it names a manifest, and normalising twice changes nothing. |
| Loader.StrippedBaseOnCapitalised | smoothchecker.py:57-58 | On a locator ending in exactly `/Manifest`, the source's cut and the corrected cut agree: both remove that segment. |
| Loader.StrippedBaseRemovesSuffix | smoothchecker.py:57-58 | The corrected base is the locator minus a trailing manifest segment in any letter case, and the locator itself when there is none. |
| Loader.StrippedBaseAsWrittenDropsOneChar | smoothchecker.py:57-58 | As written, a locator that ends in a manifest segment, but in which `/Manifest` occurs nowhere, loses only its last character, so the result differs from the corrected base. |
| Loader.StrippedBaseAsWrittenCutsAtLast | smoothchecker.py:57-58 | As written, a locator that ends in a manifest segment and contains `/Manifest` is cut just before the last `/Manifest`. Unless it ends in exactly `/Manifest`, the result is shorter than the corrected base. |
| Loader.StrippedBaseAsWrittenEarlierExample | smoothchecker.py:57-58 | As written, `http://h/Manifest/v/manifest` becomes `http://h`; the corrected base is `http://h/Manifest/v`. |
| Loader.StrippedBaseAsWrittenExample | smoothchecker.py:57-58 | As written, `http://h/v/manifest` becomes `http://h/v/manifes`; the corrected base is `http://h/v`. |
| Loader.RefinedBaseIsLower | smoothchecker.py:70-72 | A base URL taken from `Clip/@Url` is always lower case. |
| Loader.RefinedBaseStripsClipManifest | smoothchecker.py:70-74 | A `Clip` URL ending in one manifest segment, with no other, yields its lower-cased remainder. |
| Loader.LoadOutcome | smoothchecker.py:52-75 | Loading succeeds exactly when the manifest could be obtained and its `MajorVersion` is `"2"`. The result carries that manifest. Its base URL is the refined `Clip` URL when there is one. Otherwise it is the locator cut as line 58 cuts it (`StrippedBaseAsWritten`) for `http://` locators, and the path itself for local files. |
| Loader.LoadCorrectedAgrees | smoothchecker.py:52-75 | The corrected load fails exactly when the source's load fails, with the same error, and otherwise obtains the same manifest. The two differ exactly for an `http://` locator without a `Clip` URL on which the two cuts differ. They agree on every `http://` locator ending in `/Manifest`. |
| Loader.LoadAsWrittenExample | smoothchecker.py:52-75 | For `http://h/v/manifest` with a version 2 manifest and no `Clip` URL, the source loads with base `http://h/v/manifes`, and the corrected load gives `http://h/v`. |
| Loader.LoadRejectsOtherVersions | smoothchecker.py:68-69 | Any other version is refused, and the error names the version found. |
| Loader.GetManifest | smoothchecker.py:52-75 | The step-by-step reassignment of `manifest_url` and `base_url` computes exactly `Load`, including each error path. Line 58 is modelled as written: `base_url[:base_url.rfind('/Manifest')]`. |
| Strings.RFind | smoothchecker.py:58 | `rfind` is -1 exactly when the pattern does not occur. Otherwise it is the start of the last occurrence. |
| Strings.SliceTo | smoothchecker.py:58 | `s[:k]` keeps the first `k` characters for `0 <= k`, and drops `-k` characters from the end for negative `k`. |
| Strings.FirstSegment | smoothchecker.py:112 | `split('/')[0]` is a slash-free prefix of the template, followed by a slash or by the end. |
| Strings.SecondSegment | smoothchecker.py:123 | `split('/')[1]` fails exactly when the template has no slash. Otherwise it is the slash-free text after the first slash. |
| Strings.SplitJoin | smoothchecker.py:112-123 | Splitting a template `q/n...` gives back `q` as the first segment and `n` as the second. |
| Strings.Replace | smoothchecker.py:72 | `str.replace`, left to right and non-overlapping. It has no contract of its own; `ReplaceAbsent`, `ReplaceInfix`, `ReplaceConcat`, `ReplaceChars` and `ReplaceKeepsLower` state its properties. |
| Strings.ReplaceAbsent | smoothchecker.py:112-114 | `replace` leaves a string without the pattern unchanged. |
| Strings.ReplaceInfix | smoothchecker.py:112-114 | When the text before an occurrence holds no copy of the pattern's first character, `replace` substitutes that occurrence and carries on after it. |
| Strings.ReplaceConcat | smoothchecker.py:72 | When the pattern's first character does not recur in the rest of the pattern, and the second part is empty or starts with that character, `replace` distributes over the concatenation. |
| Strings.ReplaceChars | smoothchecker.py:112-114 | Every character of a `replace` result comes from the input or from the replacement. |
| Strings.ReplaceKeepsLower | smoothchecker.py:71-72 | Replacing in a lower-case string with a lower-case replacement keeps it lower case. |
| Strings.IntToStringRoundTrip | smoothchecker.py:122 | `str(i)` reads back as `i`, so distinct indices give distinct tokens. |
| Resolver.StripTrailingCommas | smoothchecker.py:103-105 | `rstrip(',')` returns the longest prefix that does not end in a comma and leaves only commas behind it. |
| Resolver.CustomAttributesRendering | smoothchecker.py:103-105 | The `{CustomAttributes}` rendering is empty for no attributes. Otherwise it is the in-order comma-separated `Name=Value` join, with no trailing comma, when the last value does not end in a comma. |
| Resolver.CustomAttributesExample | smoothchecker.py:103-105 | The attributes A=1 and B=2 render as `A=1,B=2`. |
| Resolver.QualitySegment | smoothchecker.py:101-115 | `get_chunk_quality_string`. It has no contract of its own; `QualitySegmentBitrateOnly`, `QualitySegmentWithAttributes` and `QualitySegmentNoSlash` state what it computes. |
| Resolver.QualitySegmentBitrateOnly | smoothchecker.py:101-114 | For a template `<pre>{bitrate}<post>/...`, the quality segment is `<pre><Bitrate><post>`. |
| Resolver.QualitySegmentWithAttributes | smoothchecker.py:101-114 | For a template `<pre>{bitrate}<mid>{CustomAttributes}<post>/...`, the quality segment is `<pre><Bitrate><mid><attributes><post>`. |
| Resolver.QualitySegmentNoSlash | smoothchecker.py:101-114 | The quality segment holds no slash unless the bitrate or the attribute rendering brings one in. |
| Resolver.NameSegment | smoothchecker.py:118-123 | Naming a chunk fails exactly when the template has no slash. |
| Resolver.NameSegmentFragments | smoothchecker.py:118-123 | For a template `.../<pre>{start time}<post>`, the name segment is `<pre><t><post>` when the chunk has `t`, and `<pre><str(i)><post>` otherwise. |
| Resolver.Classify | smoothchecker.py:194-202 | An answer is recorded with its code against the probed URL. An HTTPError is recorded with its own URL and code. A bad status line is recorded as 0 against the probed URL. |
| Resolver.CheckSingleChunk | smoothchecker.py:192-202 | `check_single_chunk`: one probe of the joined URL, classified. It has no contract of its own; `Classify`, `ChunkUrlInjective`, `StatusZeroMeansBadStatusLine` and `Engine.ProbedUrl` state what it records. |
| Resolver.ChunkUrlInjective | smoothchecker.py:193 | With slash-free quality segments, the joined URL determines both the quality segment and the name segment. |
| Resolver.StatusZeroMeansBadStatusLine | smoothchecker.py:194-202 | When an answer or an HTTPError never carries code 0, status 0 is recorded exactly for a bad status line. |
| Engine.StartIndexStep | smoothchecker.py:178-186 | The running `count` grows by each chunk's `d`, whether or not the chunk has `t`. |
| Engine.StartIndexIgnoresTokens | smoothchecker.py:178-186 | The index handed to the k-th chunk is determined by the durations of the chunks before it; start-time tokens do not affect it. |
| Engine.ProbedUrl | smoothchecker.py:178-193 | The k-th probe of a pair goes to `base/<quality>/<name>`. The name carries the chunk's `t` when present, and otherwise the sum of `d` over chunks 0..k-1. |
| Engine.CheckChunks | smoothchecker.py:174-189 | The loop with its `count` accumulator returns exactly `PairFailures`, the failing probes of the pair. It raises when a chunk cannot be named. |
| Engine.FailuresMembership | smoothchecker.py:189 | The filter keeps exactly the results whose status is not 200. |
| Engine.FailuresConcat | smoothchecker.py:189 | The filter keeps submission order: it distributes over concatenation. |
| Engine.FailuresEmpty | smoothchecker.py:189 | The filter returns nothing exactly when every probe answered 200. |
| Engine.SecondChunkFails | smoothchecker.py:174-202 | In a two-chunk pair where only the second probe fails with an HTTPError, `check_chunks` returns exactly that one `(url, code)`. |
| Engine.PairFailuresMembers | smoothchecker.py:174-189 | The failures of one pair are exactly its failed probes. |
| Engine.CheckStream | smoothchecker.py:167-170 | The inner loop over quality levels returns exactly `StreamFailures` of that stream. |
| Engine.CheckAllStreamsAndQualities | smoothchecker.py:164-171 | The nested loops return exactly `AllFailures`. The per-pair lists are concatenated with streams outer and qualities inner, and the first exception aborts the run. |
| Engine.CollectErrorPersists | smoothchecker.py:164-171 | Once a step raises, no later step runs, and the run ends with that error. |
| Engine.CollectEmpty | smoothchecker.py:164-171 | The gathered list is empty exactly when every step returned an empty list. |
| Engine.CollectErr | smoothchecker.py:164-171 | The gathering raises exactly when some step raises, and then with the first such step's error. |
| Engine.CollectMembers | smoothchecker.py:164-171 | Without an error, the gathered list holds exactly the members of the steps' lists. |
| Engine.StreamFailuresPass | smoothchecker.py:167-170 | A stream yields no failure exactly when each of its quality levels passes. |
| Engine.AllFailuresPass | smoothchecker.py:164-189 | The whole manifest yields no failure exactly when every chunk of every (stream, quality) pair could be named and answered 200. |
| Engine.StreamMembers | smoothchecker.py:167-170 | The failures of a stream are exactly the failed probes of its quality levels. |
| Engine.AllFailuresAreFailedProbes | smoothchecker.py:164-189 | Every gathered pair has a status other than 200 and comes from probing some (stream, quality) pair, and every such failed probe is gathered. |
| Engine.StreamFailuresErr | smoothchecker.py:167-189 | A stream raises exactly when it has a chunk, a quality level and a template without a slash. The error names that template. |
| Engine.AllFailuresAborts | smoothchecker.py:164-189 | The run aborts exactly when some stream is malformed, and the error names the first malformed stream's template. |
| Report.CheckMediaJob | smoothchecker.py:144-161 | The job computes exactly `JobOutcome`: load, check, then record `result` and, only on failure, `errors`. |
| Report.VerdictMeaning | smoothchecker.py:148-160 | `result` holds exactly when there is no failure. `errors` is attached exactly when `result` is false, and it is the gathered list. The record carries the job's own fields. |
| Report.JobPasses | smoothchecker.py:144-150 | A job passes exactly when its manifest loads and every chunk of every (stream, quality) pair could be named and answered 200. |
| Report.JobFailuresAreFailedProbes | smoothchecker.py:144-150 | A failing record lists at least one failure, and each is a probe of the media's chunks that did not answer 200. |
| Report.CheckLocator | smoothchecker.py:130-133 | Checking one row locator computes exactly `LocatorVerdict`. |
| Report.CheckCsvRow | smoothchecker.py:129-138 | The corrected row body computes exactly `CsvRowOutcome`. |
| Report.CsvRowAppendsVerdicts | smoothchecker.py:129-138 | A corrected row gains exactly two cells, the verdicts for `row[0]` and `row[1]` in that order. A one-field row fails instead, because its second lookup finds the first verdict. |
| Report.CsvRowOutcomeAsWritten | smoothchecker.py:129-131 | One CSV row as the source writes it. It has no contract of its own; `CsvRowAsWrittenNeverAppends` states that it never appends a verdict. |
| Report.CsvRowAsWrittenNeverAppends | smoothchecker.py:129-131 | As written, no row ever gains a verdict: once `row[0]` has loaded, the one-argument call to `print_manifest_info` raises TypeError. |
| Report.CsvFileAsWrittenWritesNothing | smoothchecker.py:126-141 | As written, a non-empty CSV file writes no output row and always ends with an exception. |
| Report.CheckCsvFile | smoothchecker.py:126-141 | The corrected file loop computes exactly `CsvFileOutcome`. |
| Report.CsvFileWritesPrefix | smoothchecker.py:126-141 | In order, the output holds the finished rows of a prefix of the input. The loop ends early exactly when the next row raises, and ends with that row's error. |

## Left out

- `print_manifest_info`, including the KeyError it raises when a `video` or `audio` quality level lacks the attributes it prints. That call is output formatting here. The "Findings" entry only concerns its argument count.
- Network and disk: `urllib2.urlopen`, the write of the manifest file, and `os.mkdir` of the destination directory. They are folded into the `fetch` and `readLocal` parameters. The destination directory and the `manifest_file` name are not modelled.
- XML parsing (`etree.parse`) and the attribute lookups on the parsed tree. The manifest is a typed value, so the KeyErrors for a missing `Url`, `Bitrate`, `Name`, `Value` or `d` attribute are not modelled. The one exception is `MajorVersion`, which is modelled as `MissingVersion`.
- `int(c.attrib['d'])`: a chunk's `d` is already an integer, so the ValueError on a non-numeric duration is not modelled.
- `Strings.Lower`: does not model Unicode case mapping; it lower-cases ASCII letters only, as Python 2's `str.lower` does on byte strings in the default locale.
- The `multiprocessing.Pool`: chunks are probed one after another. The source collects results with `r.get()` in submission order, so the collected list is the same.
- `processes`, the `Pool` size argument, is not a parameter. For any `processes >= 1` it has no effect on the result. The ValueError that `Pool` raises for `processes < 1`, before any probe is sent, is not modelled.
- The HEAD request itself (`_check_single_chunk`) is the `probe` parameter. Exceptions other than HTTPError and BadStatusLine (for example URLError) are not modelled.
- `Report.CheckMediaJob`: returns a new `JobRecord` where the source updates the caller's `data` dict in place (lines 148-150). It does not write the CSV line and does not look up the job id through redis/rq. It returns the record that would be written. The `True` the function returns is implied by a successful outcome.
- `Report.CheckCsvFile`: opening and reading the input CSV and appending to `<csv_file>_out` are replaced by a list of rows in and a list of written rows out.
- The diagnostic prints at lines 167, 169, 198 and 201 have no effect on any result and are not modelled.
- `results_join`, `options_parser` and the `__main__` block are CLI glue.
- `job_starter.py` is queue-enqueue plumbing.
- `extract_stats.py` is floating-point statistics over CSV output.
- The retry constants (`RETRIES`, `MS_BETWEEN_RETRIES`) are not used by the modelled functions.

## Findings

| source | as written | input that shows it | evidently intended | confidence | as-written member | corrected member |
|---|---|---|---|---|---|---|
| smoothchecker.py:57-58 | The suffix test lower-cases the locator, but `rfind('/Manifest')` looks for the capitalised segment only. When it finds nothing, `base_url[:-1]` drops one character. When `/Manifest` occurs earlier in the path, the cut is made there instead (`http://h/Manifest/v/manifest` gives `http://h`). | `http://h/v/manifest` gives base `http://h/v/manifes` | Remove the trailing manifest segment in any letter case, giving `http://h/v` | high (not executed) | Loader.LoadAsWrittenExample | Loader.StrippedBaseRemovesSuffix |
| smoothchecker.py:131-133 | `print_manifest_info(manifest)` is called with one argument, but the function takes two (`manifest, url`). `check_all_streams_and_qualities(url, manifest)` likewise leaves out `processes`. Every row whose first locator loads raises TypeError, so nothing is ever written. | any CSV row whose `row[0]` manifest loads | Pass `url` (and a process count), then append both verdicts to the row | high (not executed) | Report.CsvRowAsWrittenNeverAppends | Report.CsvRowAppendsVerdicts |

For the first row, `Loader.Load` keeps the source's cut, so the job and CSV verdicts probe the base URL the program probes. `Loader.LoadCorrected` applies the corrected cut, and `Loader.LoadCorrectedAgrees` states exactly where the two differ. For the second row, the corrected CSV loop (`Report.CheckCsvFile`) is the one the other CSV lemmas describe.
