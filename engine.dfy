/** The verification engine: `check_chunks` walks one stream's chunk
    timeline for one quality level, probing each chunk URL and keeping the
    failures; `check_all_streams_and_qualities` does that for every stream
    and every quality level in turn. The worker pool is modelled as the
    sequential map its submission-order collection amounts to. */
module Engine {
  import opened Wrappers
  import opened Strings
  import opened SmoothManifest
  import opened Resolver

  /** `split('/')[1]` raised IndexError: the template has no slash. */
  datatype CheckError = MalformedTemplate(template: string)

  /** What one step of the checker hands back: its failures, or the
      exception that aborted it. */
  type Outcome = Result<seq<ProbeResult>, CheckError>

  // ---------------------------------------------------------------------
  // Specification
  // ---------------------------------------------------------------------

  /** The sum of the durations `d` of the given chunks. */
  function DurationSum(chunks: seq<Chunk>): int
  {
    if chunks == [] then 0 else chunks[0].d + DurationSum(chunks[1..])
  }

  /** The index handed to the k-th chunk: the durations of all chunks
      before it, whether or not they carried `t`. */
  function StartIndex(chunks: seq<Chunk>, k: nat): int
    requires k <= |chunks|
  {
    DurationSum(chunks[..k])
  }

  /** The name segment of the k-th chunk of a well-formed template. */
  function ChunkName(stream: StreamIndex, k: nat): string
    requires k < |stream.chunks| && '/' in stream.url
  {
    NameSegment(stream.url, stream.chunks[k], StartIndex(stream.chunks, k)).value
  }

  /** The probe of the k-th chunk of one (stream, quality) pair. */
  function ChunkProbe(baseUrl: string, stream: StreamIndex, qualityLevel: nat, k: nat, probe: string -> Response): ProbeResult
    requires qualityLevel < |stream.qualities| && k < |stream.chunks| && '/' in stream.url
  {
    CheckSingleChunk(baseUrl, QualitySegment(stream, qualityLevel), ChunkName(stream, k), probe)
  }

  /** Every (url, status) pair of one (stream, quality) pair, in submission
      order; an error when there is a chunk and the template has no slash. */
  function ChunkResults(baseUrl: string, stream: StreamIndex, qualityLevel: nat, probe: string -> Response): Outcome
    requires qualityLevel < |stream.qualities|
  {
    if stream.chunks == [] then Ok([])
    else if '/' !in stream.url then Err(MalformedTemplate(stream.url))
    else Ok(seq(|stream.chunks|, k requires 0 <= k < |stream.chunks| => ChunkProbe(baseUrl, stream, qualityLevel, k, probe)))
  }

  predicate Failed(r: ProbeResult)
  {
    r.status != Success
  }

  predicate AllSucceeded(rs: seq<ProbeResult>)
  {
    forall i :: 0 <= i < |rs| ==> !Failed(rs[i])
  }

  /** `[r for r in results if r[1] != 200]`. */
  function Failures(rs: seq<ProbeResult>): seq<ProbeResult>
  {
    if rs == [] then []
    else if Failed(rs[0]) then [rs[0]] + Failures(rs[1..])
    else Failures(rs[1..])
  }

  /** What `check_chunks` returns for one (stream, quality) pair. */
  function PairFailures(baseUrl: string, stream: StreamIndex, qualityLevel: nat, probe: string -> Response): Outcome
    requires qualityLevel < |stream.qualities|
  {
    match ChunkResults(baseUrl, stream, qualityLevel, probe)
    case Err(e) => Err(e)
    case Ok(rs) => Ok(Failures(rs))
  }

  /** `errors.extend(next)` after an earlier step: an exception already
      raised wins, otherwise the lists are concatenated. */
  function Extend(soFar: Outcome, next: Outcome): Outcome
  {
    if soFar.Err? then soFar
    else if next.Err? then next
    else Ok(soFar.value + next.value)
  }

  /** `errors = []` followed by `errors.extend(o)` for each outcome in turn. */
  function Collect(outcomes: seq<Outcome>): Outcome
    decreases |outcomes|
  {
    if outcomes == [] then Ok([])
    else Extend(Collect(outcomes[..|outcomes| - 1]), outcomes[|outcomes| - 1])
  }

  /** The outcomes of the quality levels of one stream, in document order. */
  function StreamOutcomes(baseUrl: string, stream: StreamIndex, probe: string -> Response): seq<Outcome>
  {
    seq(|stream.qualities|, qi requires 0 <= qi < |stream.qualities| => PairFailures(baseUrl, stream, qi, probe))
  }

  /** The failures of every quality level of one stream, in order. */
  function StreamFailures(baseUrl: string, stream: StreamIndex, probe: string -> Response): Outcome
  {
    Collect(StreamOutcomes(baseUrl, stream, probe))
  }

  /** The outcomes of the streams of a manifest, in document order. */
  function ManifestOutcomes(baseUrl: string, m: Manifest, probe: string -> Response): seq<Outcome>
  {
    seq(|m.streams|, si requires 0 <= si < |m.streams| => StreamFailures(baseUrl, m.streams[si], probe))
  }

  /** What `check_all_streams_and_qualities` returns. */
  function AllFailures(baseUrl: string, m: Manifest, probe: string -> Response): Outcome
  {
    Collect(ManifestOutcomes(baseUrl, m, probe))
  }

  /** Every chunk of the pair could be named and answered 200. */
  predicate PairPasses(baseUrl: string, stream: StreamIndex, qualityLevel: nat, probe: string -> Response)
    requires qualityLevel < |stream.qualities|
  {
    ChunkResults(baseUrl, stream, qualityLevel, probe).Ok? && AllSucceeded(ChunkResults(baseUrl, stream, qualityLevel, probe).value)
  }

  /** A stream whose chunks cannot be named: it has a chunk and a quality
      level to probe them at, but its template has no slash. */
  predicate Malformed(stream: StreamIndex)
  {
    stream.qualities != [] && stream.chunks != [] && '/' !in stream.url
  }

  // ---------------------------------------------------------------------
  // The source's loops
  // ---------------------------------------------------------------------

  /** `check_chunks`: one pass over the chunk timeline with the running
      duration total `count`, then the filter. */
  method CheckChunks(baseUrl: string, manifest: Manifest, streamIndex: nat, qualityLevel: nat, probe: string -> Response)
    returns (r: Outcome)
    requires streamIndex < |manifest.streams| && qualityLevel < |manifest.streams[streamIndex].qualities|
    ensures r == PairFailures(baseUrl, manifest.streams[streamIndex], qualityLevel, probe)
  {
    var stream := manifest.streams[streamIndex];
    var results: seq<ProbeResult> := [];
    var count := 0;
    var i := 0;
    while i < |stream.chunks|
      invariant 0 <= i <= |stream.chunks|
      invariant count == StartIndex(stream.chunks, i)
      invariant i > 0 ==> '/' in stream.url
      invariant i > 0 ==> ProbesUpTo(baseUrl, stream, qualityLevel, probe, results)
      invariant |results| == i
    {
      var c := stream.chunks[i];
      var quality := QualitySegment(stream, qualityLevel);
      var name := NameSegment(stream.url, c, count);
      if name.None? {
        return Err(MalformedTemplate(stream.url));
      }
      var found := CheckSingleChunk(baseUrl, quality, name.value, probe);
      assert found == ChunkProbe(baseUrl, stream, qualityLevel, i, probe);
      ProbesStep(baseUrl, stream, qualityLevel, probe, results);
      results := results + [found];
      StartIndexStep(stream.chunks, i);
      count := count + c.d;
      i := i + 1;
    }
    if stream.chunks != [] {
      ProbesComplete(baseUrl, stream, qualityLevel, probe, results);
    }
    r := Ok(Failures(results));
  }

  /** `results` holds the probes of the first `|results|` chunks. */
  predicate ProbesUpTo(baseUrl: string, stream: StreamIndex, qualityLevel: nat, probe: string -> Response, results: seq<ProbeResult>)
    requires qualityLevel < |stream.qualities| && '/' in stream.url
  {
    |results| <= |stream.chunks| &&
    forall k :: 0 <= k < |results| ==> results[k] == ChunkProbe(baseUrl, stream, qualityLevel, k, probe)
  }

  lemma ProbesStep(baseUrl: string, stream: StreamIndex, qualityLevel: nat, probe: string -> Response, results: seq<ProbeResult>)
    requires qualityLevel < |stream.qualities| && |results| < |stream.chunks| && '/' in stream.url
    requires ProbesUpTo(baseUrl, stream, qualityLevel, probe, results)
    ensures ProbesUpTo(baseUrl, stream, qualityLevel, probe, results + [ChunkProbe(baseUrl, stream, qualityLevel, |results|, probe)])
  {
  }

  lemma ProbesComplete(baseUrl: string, stream: StreamIndex, qualityLevel: nat, probe: string -> Response, results: seq<ProbeResult>)
    requires qualityLevel < |stream.qualities| && '/' in stream.url
    requires ProbesUpTo(baseUrl, stream, qualityLevel, probe, results) && |results| == |stream.chunks|
    ensures ChunkResults(baseUrl, stream, qualityLevel, probe) == Ok(results)
  {
    if stream.chunks != [] {
      var all := seq(|stream.chunks|, k requires 0 <= k < |stream.chunks| => ChunkProbe(baseUrl, stream, qualityLevel, k, probe));
      assert forall k :: 0 <= k < |results| ==> results[k] == all[k];
      assert results == all;
    }
  }

  /** The inner loop of `check_all_streams_and_qualities`: every quality
      level of stream `si`, in order, each pair's failures appended. */
  method CheckStream(baseUrl: string, manifest: Manifest, si: nat, probe: string -> Response)
    returns (r: Outcome)
    requires si < |manifest.streams|
    ensures r == StreamFailures(baseUrl, manifest.streams[si], probe)
  {
    ghost var outcomes := StreamOutcomes(baseUrl, manifest.streams[si], probe);
    var errors: seq<ProbeResult> := [];
    var j := 0;
    while j < |manifest.streams[si].qualities|
      invariant 0 <= j <= |manifest.streams[si].qualities|
      invariant Collect(outcomes[..j]) == Ok(errors)
    {
      var found := CheckChunks(baseUrl, manifest, si, j, probe);
      CollectStep(outcomes, j);
      if found.Err? {
        CollectErrorPersists(outcomes, j);
        return Err(found.error);
      }
      errors := errors + found.value;
      j := j + 1;
    }
    assert outcomes[..j] == outcomes;
    r := Ok(errors);
  }

  /** `check_all_streams_and_qualities`: streams outer, qualities inner,
      each pair's failures appended to `errors`. */
  method CheckAllStreamsAndQualities(baseUrl: string, manifest: Manifest, probe: string -> Response)
    returns (r: Outcome)
    ensures r == AllFailures(baseUrl, manifest, probe)
  {
    ghost var outcomes := ManifestOutcomes(baseUrl, manifest, probe);
    var errors: seq<ProbeResult> := [];
    var i := 0;
    while i < |manifest.streams|
      invariant 0 <= i <= |manifest.streams|
      invariant Collect(outcomes[..i]) == Ok(errors)
    {
      var found := CheckStream(baseUrl, manifest, i, probe);
      CollectStep(outcomes, i);
      if found.Err? {
        CollectErrorPersists(outcomes, i);
        return Err(found.error);
      }
      errors := errors + found.value;
      i := i + 1;
    }
    assert outcomes[..i] == outcomes;
    r := Ok(errors);
  }

  // ---------------------------------------------------------------------
  // Properties
  // ---------------------------------------------------------------------

  lemma {:induction false} DurationSumAppend(a: seq<Chunk>, b: seq<Chunk>)
    ensures DurationSum(a + b) == DurationSum(a) + DurationSum(b)
    decreases |a|
  {
    if a == [] {
      assert a + b == b;
    } else {
      assert (a + b)[1..] == a[1..] + b;
      DurationSumAppend(a[1..], b);
    }
  }

  /** The running total grows by each chunk's duration, `t` or no `t`. */
  lemma StartIndexStep(chunks: seq<Chunk>, k: nat)
    requires k < |chunks|
    ensures StartIndex(chunks, k + 1) == StartIndex(chunks, k) + chunks[k].d
  {
    assert chunks[..k + 1] == chunks[..k] + [chunks[k]];
    DurationSumAppend(chunks[..k], [chunks[k]]);
  }

  /** The index handed to a chunk depends on the earlier durations only:
      two timelines with the same durations give every chunk the same index,
      whatever start-time tokens they carry. */
  lemma {:induction false} StartIndexIgnoresTokens(a: seq<Chunk>, b: seq<Chunk>, k: nat)
    requires |a| == |b| && k <= |a|
    requires forall i :: 0 <= i < |a| ==> a[i].d == b[i].d
    ensures StartIndex(a, k) == StartIndex(b, k)
    decreases k
  {
    if k > 0 {
      StartIndexIgnoresTokens(a, b, k - 1);
      StartIndexStep(a, k - 1);
      StartIndexStep(b, k - 1);
    }
  }

  /** The k-th probe of a pair goes to `base/<quality segment>/<name>`, the
      name carrying the chunk's `t` when present and the running duration
      total otherwise; every quality level of the stream uses the same name. */
  lemma ProbedUrl(baseUrl: string, stream: StreamIndex, qualityLevel: nat, probe: string -> Response, k: nat)
    requires qualityLevel < |stream.qualities| && k < |stream.chunks|
    requires ChunkResults(baseUrl, stream, qualityLevel, probe).Ok?
    ensures '/' in stream.url
    ensures |ChunkResults(baseUrl, stream, qualityLevel, probe).value| == |stream.chunks|
    ensures var url := baseUrl + "/" + QualitySegment(stream, qualityLevel) + "/" + ChunkName(stream, k);
      ChunkResults(baseUrl, stream, qualityLevel, probe).value[k] == Classify(url, probe(url))
    ensures ChunkName(stream, k) ==
      Replace(SecondSegment(stream.url).value, StartTimePlaceholder,
              if stream.chunks[k].t.Some? then stream.chunks[k].t.value else IntToString(DurationSum(stream.chunks[..k])))
  {
  }

  lemma {:induction false} FailuresMembership(rs: seq<ProbeResult>, x: ProbeResult)
    ensures x in Failures(rs) <==> x in rs && Failed(x)
    decreases |rs|
  {
    if rs != [] {
      FailuresMembership(rs[1..], x);
      assert rs == [rs[0]] + rs[1..];
    }
  }

  /** Filtering keeps submission order: it distributes over concatenation. */
  lemma {:induction false} FailuresConcat(a: seq<ProbeResult>, b: seq<ProbeResult>)
    ensures Failures(a + b) == Failures(a) + Failures(b)
    decreases |a|
  {
    if a == [] {
      assert a + b == b;
    } else {
      assert (a + b)[1..] == a[1..] + b;
      FailuresConcat(a[1..], b);
    }
  }

  lemma {:induction false} FailuresEmpty(rs: seq<ProbeResult>)
    ensures Failures(rs) == [] <==> AllSucceeded(rs)
    decreases |rs|
  {
    if rs != [] {
      FailuresEmpty(rs[1..]);
      assert forall i :: 1 <= i < |rs| ==> rs[i] == rs[1..][i - 1];
    }
  }

  /** A pair with two chunks whose only failing probe is the second yields
      exactly that one (url, status) pair. */
  lemma SecondChunkFails(baseUrl: string, stream: StreamIndex, qualityLevel: nat, probe: string -> Response, code: int)
    requires qualityLevel < |stream.qualities| && |stream.chunks| == 2 && '/' in stream.url
    requires code != Success
    requires var q := QualitySegment(stream, qualityLevel);
      var u0 := ChunkUrl(baseUrl, q, ChunkName(stream, 0));
      var u1 := ChunkUrl(baseUrl, q, ChunkName(stream, 1));
      probe(u0) == Answered(Success) && probe(u1) == HttpError(u1, code)
    ensures PairFailures(baseUrl, stream, qualityLevel, probe) ==
      Ok([ProbeResult(ChunkUrl(baseUrl, QualitySegment(stream, qualityLevel), ChunkName(stream, 1)), code)])
  {
    var rs := ChunkResults(baseUrl, stream, qualityLevel, probe).value;
    var q := QualitySegment(stream, qualityLevel);
    var u1 := ChunkUrl(baseUrl, q, ChunkName(stream, 1));
    assert rs[0].status == Success;
    assert rs[1] == ProbeResult(u1, code);
    assert rs[1..][1..] == [];
    assert Failures(rs) == Failures(rs[1..]) == [rs[1]];
  }

  // The fold ----------------------------------------------------------

  lemma CollectStep(outcomes: seq<Outcome>, k: nat)
    requires k < |outcomes|
    ensures Collect(outcomes[..k + 1]) == Extend(Collect(outcomes[..k]), outcomes[k])
  {
    assert outcomes[..k + 1][..k] == outcomes[..k];
  }

  /** Once a step raises, nothing after it runs: the fold is that error. */
  lemma {:induction false} CollectErrorPersists(outcomes: seq<Outcome>, k: nat)
    requires k < |outcomes| && Collect(outcomes[..k]).Ok? && outcomes[k].Err?
    ensures Collect(outcomes) == outcomes[k]
    decreases |outcomes|
  {
    if k + 1 == |outcomes| {
      assert outcomes == outcomes[..k + 1];
      CollectStep(outcomes, k);
    } else {
      var front := outcomes[..|outcomes| - 1];
      assert front[..k] == outcomes[..k];
      CollectErrorPersists(front, k);
    }
  }

  lemma {:induction false} CollectEmpty(outcomes: seq<Outcome>)
    ensures Collect(outcomes) == Ok([]) <==> forall k :: 0 <= k < |outcomes| ==> outcomes[k] == Ok([])
    decreases |outcomes|
  {
    if outcomes != [] {
      var front := outcomes[..|outcomes| - 1];
      CollectEmpty(front);
      ExtendEmpty(Collect(front), outcomes[|outcomes| - 1]);
      assert forall k :: 0 <= k < |front| ==> front[k] == outcomes[k];
    }
  }

  /** The fold raises exactly when some step raises, and then it is the
      first such step's error. */
  lemma {:induction false} CollectErr(outcomes: seq<Outcome>)
    ensures Collect(outcomes).Err? <==> exists k :: 0 <= k < |outcomes| && outcomes[k].Err?
    ensures Collect(outcomes).Err? ==>
      exists k :: 0 <= k < |outcomes| && outcomes[k] == Collect(outcomes) &&
        forall j :: 0 <= j < k ==> outcomes[j].Ok?
    decreases |outcomes|
  {
    if outcomes != [] {
      var n := |outcomes| - 1;
      var front := outcomes[..n];
      CollectErr(front);
      assert forall k :: 0 <= k < n ==> front[k] == outcomes[k];
    }
  }

  /** Without an error, the fold holds exactly the members of the steps. */
  lemma {:induction false} CollectMembers(outcomes: seq<Outcome>, x: ProbeResult)
    requires Collect(outcomes).Ok?
    ensures forall k :: 0 <= k < |outcomes| ==> outcomes[k].Ok?
    ensures x in Collect(outcomes).value <==> exists k :: 0 <= k < |outcomes| && x in outcomes[k].value
    decreases |outcomes|
  {
    if outcomes != [] {
      var n := |outcomes| - 1;
      var front := outcomes[..n];
      CollectMembers(front, x);
      assert forall k :: 0 <= k < n ==> front[k] == outcomes[k];
    }
  }

  lemma ExtendEmpty(soFar: Outcome, next: Outcome)
    ensures Extend(soFar, next) == Ok([]) <==> soFar == Ok([]) && next == Ok([])
  {
    if soFar.Ok? && next.Ok? {
      assert |soFar.value + next.value| == |soFar.value| + |next.value|;
    }
  }

  // The checker ---------------------------------------------------------

  lemma PairPassesIff(baseUrl: string, stream: StreamIndex, qualityLevel: nat, probe: string -> Response)
    requires qualityLevel < |stream.qualities|
    ensures PairFailures(baseUrl, stream, qualityLevel, probe) == Ok([]) <==> PairPasses(baseUrl, stream, qualityLevel, probe)
  {
    var cr := ChunkResults(baseUrl, stream, qualityLevel, probe);
    if cr.Ok? {
      FailuresEmpty(cr.value);
    }
  }

  /** A stream yields no failure exactly when each of its quality levels
      passes. */
  lemma StreamFailuresPass(baseUrl: string, stream: StreamIndex, probe: string -> Response)
    ensures StreamFailures(baseUrl, stream, probe) == Ok([]) <==>
      forall qi :: 0 <= qi < |stream.qualities| ==> PairPasses(baseUrl, stream, qi, probe)
  {
    var outcomes := StreamOutcomes(baseUrl, stream, probe);
    CollectEmpty(outcomes);
    forall qi | 0 <= qi < |stream.qualities|
      ensures outcomes[qi] == Ok([]) <==> PairPasses(baseUrl, stream, qi, probe)
    {
      PairPassesIff(baseUrl, stream, qi, probe);
    }
  }

  /** The whole manifest yields no failure exactly when every chunk of
      every (stream, quality) pair could be named and answered 200. */
  lemma AllFailuresPass(baseUrl: string, m: Manifest, probe: string -> Response)
    ensures AllFailures(baseUrl, m, probe) == Ok([]) <==>
      forall si, qi :: 0 <= si < |m.streams| && 0 <= qi < |m.streams[si].qualities| ==> PairPasses(baseUrl, m.streams[si], qi, probe)
  {
    var outcomes := ManifestOutcomes(baseUrl, m, probe);
    CollectEmpty(outcomes);
    forall si | 0 <= si < |m.streams|
      ensures outcomes[si] == Ok([]) <==>
        forall qi :: 0 <= qi < |m.streams[si].qualities| ==> PairPasses(baseUrl, m.streams[si], qi, probe)
    {
      StreamFailuresPass(baseUrl, m.streams[si], probe);
    }
  }

  /** `x` is one of the (url, status) pairs probed for the pair. */
  predicate Probed(baseUrl: string, stream: StreamIndex, qualityLevel: nat, probe: string -> Response, x: ProbeResult)
    requires qualityLevel < |stream.qualities|
  {
    ChunkResults(baseUrl, stream, qualityLevel, probe).Ok? && x in ChunkResults(baseUrl, stream, qualityLevel, probe).value
  }

  /** The failures of one pair are exactly its failed probes. */
  lemma PairFailuresMembers(baseUrl: string, stream: StreamIndex, qualityLevel: nat, probe: string -> Response, x: ProbeResult)
    requires qualityLevel < |stream.qualities|
    requires PairFailures(baseUrl, stream, qualityLevel, probe).Ok?
    ensures x in PairFailures(baseUrl, stream, qualityLevel, probe).value <==>
      Probed(baseUrl, stream, qualityLevel, probe, x) && Failed(x)
  {
    FailuresMembership(ChunkResults(baseUrl, stream, qualityLevel, probe).value, x);
  }

  /** The failures of one stream are exactly the failed probes of its
      quality levels. */
  lemma StreamMembers(baseUrl: string, stream: StreamIndex, probe: string -> Response, x: ProbeResult)
    requires StreamFailures(baseUrl, stream, probe).Ok?
    ensures x in StreamFailures(baseUrl, stream, probe).value <==>
      (Failed(x) && exists qi :: 0 <= qi < |stream.qualities| && Probed(baseUrl, stream, qi, probe, x))
  {
    var outcomes := StreamOutcomes(baseUrl, stream, probe);
    CollectMembers(outcomes, x);
    forall qi | 0 <= qi < |stream.qualities|
      ensures x in outcomes[qi].value <==> Probed(baseUrl, stream, qi, probe, x) && Failed(x)
    {
      PairFailuresMembers(baseUrl, stream, qi, probe, x);
    }
  }

  /** Every reported failure has a status other than 200 and is the result
      of probing a chunk of some (stream, quality) pair, and every failed
      probe is reported. */
  lemma AllFailuresAreFailedProbes(baseUrl: string, m: Manifest, probe: string -> Response, x: ProbeResult)
    requires AllFailures(baseUrl, m, probe).Ok?
    ensures x in AllFailures(baseUrl, m, probe).value <==>
      (x.status != Success &&
       exists si, qi :: 0 <= si < |m.streams| && 0 <= qi < |m.streams[si].qualities| && Probed(baseUrl, m.streams[si], qi, probe, x))
  {
    var outcomes := ManifestOutcomes(baseUrl, m, probe);
    CollectMembers(outcomes, x);
    if x in AllFailures(baseUrl, m, probe).value {
      var si :| 0 <= si < |outcomes| && x in outcomes[si].value;
      StreamMembers(baseUrl, m.streams[si], probe, x);
      var qi :| 0 <= qi < |m.streams[si].qualities| && Probed(baseUrl, m.streams[si], qi, probe, x);
    }
    if x.status != Success && exists si, qi :: 0 <= si < |m.streams| && 0 <= qi < |m.streams[si].qualities| && Probed(baseUrl, m.streams[si], qi, probe, x) {
      var si, qi :| 0 <= si < |m.streams| && 0 <= qi < |m.streams[si].qualities| && Probed(baseUrl, m.streams[si], qi, probe, x);
      assert outcomes[si].Ok?;
      assert outcomes[si] == StreamFailures(baseUrl, m.streams[si], probe);
      StreamMembers(baseUrl, m.streams[si], probe, x);
      assert x in outcomes[si].value;
    }
  }

  /** The run aborts exactly when some stream with chunks and quality
      levels has a template without a slash, and the error names the first
      such stream's template. */
  lemma AllFailuresAborts(baseUrl: string, m: Manifest, probe: string -> Response)
    ensures AllFailures(baseUrl, m, probe).Err? <==> exists si :: 0 <= si < |m.streams| && Malformed(m.streams[si])
    ensures AllFailures(baseUrl, m, probe).Err? ==>
      exists si :: 0 <= si < |m.streams| && Malformed(m.streams[si]) &&
        AllFailures(baseUrl, m, probe) == Err(MalformedTemplate(m.streams[si].url)) &&
        forall sj :: 0 <= sj < si ==> !Malformed(m.streams[sj])
  {
    var outcomes := ManifestOutcomes(baseUrl, m, probe);
    CollectErr(outcomes);
    forall si | 0 <= si < |m.streams|
      ensures outcomes[si].Err? <==> Malformed(m.streams[si])
      ensures outcomes[si].Err? ==> outcomes[si] == Err(MalformedTemplate(m.streams[si].url))
    {
      StreamFailuresErr(baseUrl, m.streams[si], probe);
    }
  }

  lemma StreamFailuresErr(baseUrl: string, stream: StreamIndex, probe: string -> Response)
    ensures StreamFailures(baseUrl, stream, probe).Err? <==> Malformed(stream)
    ensures StreamFailures(baseUrl, stream, probe).Err? ==> StreamFailures(baseUrl, stream, probe) == Err(MalformedTemplate(stream.url))
  {
    var outcomes := StreamOutcomes(baseUrl, stream, probe);
    CollectErr(outcomes);
    if Malformed(stream) {
      assert outcomes[0].Err?;
    }
  }
}
