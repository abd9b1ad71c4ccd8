/** Building a chunk URL from a stream's `Url` template
    (`get_chunk_quality_string`, `get_chunk_name_string`) and probing it
    (`check_single_chunk`). The HEAD request itself is a parameter: it maps
    a URL to what `urlopen` did with it. */
module Resolver {
  import opened Wrappers
  import opened Strings
  import opened SmoothManifest

  const BitratePlaceholder: string := "{bitrate}"
  const CustomAttributesPlaceholder: string := "{CustomAttributes}"
  const StartTimePlaceholder: string := "{start time}"

  /** The status the checker accepts. */
  const Success: int := 200

  /** The status recorded for a response with a malformed status line. */
  const BadStatus: int := 0

  /** What the HEAD request did: answered with a status, raised HTTPError
      (which carries its own URL and code), or raised BadStatusLine. */
  datatype Response =
    | Answered(code: int)
    | HttpError(url: string, code: int)
    | BadStatusLine

  /** One (url, status) pair. */
  datatype ProbeResult = ProbeResult(url: string, status: int)

  // ---------------------------------------------------------------------
  // The quality segment
  // ---------------------------------------------------------------------

  /** `''.join(["%s=%s," % (Name, Value) ...])`. */
  function AttributePairs(attrs: seq<Attribute>): string
  {
    if attrs == [] then "" else attrs[0].name + "=" + attrs[0].value + "," + AttributePairs(attrs[1..])
  }

  /** `s.rstrip(',')`. */
  function StripTrailingCommas(s: string): (r: string)
    ensures r == [] || r[|r| - 1] != ','
    ensures |r| <= |s| && s[..|r|] == r
    ensures forall i :: |r| <= i < |s| ==> s[i] == ','
    decreases |s|
  {
    if s != [] && s[|s| - 1] == ',' then StripTrailingCommas(s[..|s| - 1]) else s
  }

  /** The rendering substituted for `{CustomAttributes}`. */
  function CustomAttributesString(attrs: seq<Attribute>): string
  {
    StripTrailingCommas(AttributePairs(attrs))
  }

  /** Reference rendering: `Name=Value` items separated by commas. */
  function CommaJoin(attrs: seq<Attribute>): string
  {
    if attrs == [] then ""
    else if |attrs| == 1 then attrs[0].name + "=" + attrs[0].value
    else attrs[0].name + "=" + attrs[0].value + "," + CommaJoin(attrs[1..])
  }

  /** `get_chunk_quality_string`: the template's first `/`-segment with
      the bitrate and then the custom attributes substituted. */
  function QualitySegment(stream: StreamIndex, qualityLevel: nat): string
    requires qualityLevel < |stream.qualities|
  {
    var q := stream.qualities[qualityLevel];
    var withBitrate := Replace(FirstSegment(stream.url), BitratePlaceholder, q.bitrate);
    Replace(withBitrate, CustomAttributesPlaceholder, CustomAttributesString(q.customAttributes))
  }

  /** The quality segment holds no slash unless the bitrate or the
      attribute rendering brings one in. */
  lemma QualitySegmentNoSlash(stream: StreamIndex, qualityLevel: nat)
    requires qualityLevel < |stream.qualities|
    requires '/' !in stream.qualities[qualityLevel].bitrate
    requires '/' !in CustomAttributesString(stream.qualities[qualityLevel].customAttributes)
    ensures '/' !in QualitySegment(stream, qualityLevel)
  {
    var q := stream.qualities[qualityLevel];
    var first := FirstSegment(stream.url);
    ReplaceChars(first, BitratePlaceholder, q.bitrate, '/');
    ReplaceChars(Replace(first, BitratePlaceholder, q.bitrate), CustomAttributesPlaceholder, CustomAttributesString(q.customAttributes), '/');
  }

  // ---------------------------------------------------------------------
  // The chunk-name segment
  // ---------------------------------------------------------------------

  /** `t` when the chunk carries it, else `str(i)`. */
  function StartToken(chunk: Chunk, i: int): string
  {
    match chunk.t
    case Some(t) => t
    case None => IntToString(i)
  }

  /** `get_chunk_name_string`: the template's second `/`-segment with the
      start-time token substituted; `None` where `split('/')[1]` raises
      IndexError. */
  function NameSegment(template: string, chunk: Chunk, i: int): (r: Option<string>)
    ensures r.None? <==> '/' !in template
  {
    match SecondSegment(template)
    case None => None
    case Some(segment) => Some(Replace(segment, StartTimePlaceholder, StartToken(chunk, i)))
  }

  // ---------------------------------------------------------------------
  // Probing one chunk
  // ---------------------------------------------------------------------

  function ChunkUrl(baseUrl: string, quality: string, name: string): string
  {
    baseUrl + "/" + quality + "/" + name
  }

  /** The `try`/`except` of `check_single_chunk`: an answer is recorded
      against the probed URL, an HTTPError against its own URL and code,
      a bad status line as status 0 against the probed URL. */
  function Classify(url: string, response: Response): (r: ProbeResult)
    ensures response.Answered? ==> r == ProbeResult(url, response.code)
    ensures response.HttpError? ==> r == ProbeResult(response.url, response.code)
    ensures response.BadStatusLine? ==> r == ProbeResult(url, BadStatus)
  {
    match response
    case Answered(code) => ProbeResult(url, code)
    case HttpError(errorUrl, code) => ProbeResult(errorUrl, code)
    case BadStatusLine => ProbeResult(url, BadStatus)
  }

  /** `check_single_chunk`: join the URL, probe it once, classify. */
  function CheckSingleChunk(baseUrl: string, quality: string, name: string, probe: string -> Response): ProbeResult
  {
    Classify(ChunkUrl(baseUrl, quality, name), probe(ChunkUrl(baseUrl, quality, name)))
  }

  // ---------------------------------------------------------------------
  // Properties
  // ---------------------------------------------------------------------

  lemma {:induction false} AttributePairsJoin(attrs: seq<Attribute>)
    requires attrs != []
    ensures AttributePairs(attrs) == CommaJoin(attrs) + ","
    decreases |attrs|
  {
    if |attrs| > 1 {
      AttributePairsJoin(attrs[1..]);
    }
  }

  /** The custom-attributes rendering is empty without attributes, never
      ends in a comma, and is the plain comma-joined `Name=Value` list
      whenever the last value does not itself end in a comma. */
  lemma CustomAttributesRendering(attrs: seq<Attribute>)
    ensures attrs == [] ==> CustomAttributesString(attrs) == ""
    ensures var r := CustomAttributesString(attrs); r == [] || r[|r| - 1] != ','
    ensures attrs != [] && !EndsWith(attrs[|attrs| - 1].value, ",") ==>
      CustomAttributesString(attrs) == CommaJoin(attrs)
  {
    if attrs != [] && !EndsWith(attrs[|attrs| - 1].value, ",") {
      AttributePairsJoin(attrs);
      var j := CommaJoin(attrs);
      CommaJoinEnd(attrs);
      assert (j + ",")[..|j + ","| - 1] == j;
    }
  }

  /** A comma-joined list ends with its last value, or with `=` when that
      value is empty. */
  lemma {:induction false} CommaJoinEnd(attrs: seq<Attribute>)
    requires attrs != []
    ensures var j := CommaJoin(attrs); var v := attrs[|attrs| - 1].value;
      j != [] && (v == [] ==> j[|j| - 1] == '=') && (v != [] ==> j[|j| - 1] == v[|v| - 1])
    decreases |attrs|
  {
    if |attrs| > 1 {
      CommaJoinEnd(attrs[1..]);
    }
  }

  /** The two attributes A=1 and B=2 render as `A=1,B=2`. */
  lemma CustomAttributesExample(attrs: seq<Attribute>)
    requires attrs == [Attribute("A", "1"), Attribute("B", "2")]
    ensures CustomAttributesString(attrs) == "A=1,B=2"
  {
    CustomAttributesRendering(attrs);
  }

  /** With a template whose first segment is `<pre>{bitrate}<post>`, as in
      `QualityLevels({bitrate})/...`, the quality segment is
      `<pre><Bitrate><post>`. */
  lemma QualitySegmentBitrateOnly(stream: StreamIndex, qualityLevel: nat, pre: string, post: string, rest: string)
    requires qualityLevel < |stream.qualities|
    requires stream.url == pre + BitratePlaceholder + post + "/" + rest
    requires '/' !in pre && '/' !in post && '{' !in pre && '{' !in post
    requires '{' !in stream.qualities[qualityLevel].bitrate
    ensures QualitySegment(stream, qualityLevel) == pre + stream.qualities[qualityLevel].bitrate + post
  {
    var q := stream.qualities[qualityLevel];
    var first := pre + BitratePlaceholder + post;
    assert '/' !in BitratePlaceholder;
    SplitJoin(first, [], rest);
    assert stream.url == first + "/" + [] + rest;
    ReplaceInfix(pre, post, BitratePlaceholder, q.bitrate);
    AbsentChar(post, BitratePlaceholder, 0);
    ReplaceAbsent(post, BitratePlaceholder, q.bitrate);
    var withBitrate := pre + q.bitrate + post;
    AbsentChar(withBitrate, CustomAttributesPlaceholder, 0);
    ReplaceAbsent(withBitrate, CustomAttributesPlaceholder, CustomAttributesString(q.customAttributes));
  }

  /** With a template whose first segment is
      `<pre>{bitrate}<mid>{CustomAttributes}<post>`, as in
      `QualityLevels({bitrate},{CustomAttributes})/...`, the quality segment
      is `<pre><Bitrate><mid><Name=Value,...><post>`. */
  lemma QualitySegmentWithAttributes(stream: StreamIndex, qualityLevel: nat, pre: string, mid: string, post: string, rest: string)
    requires qualityLevel < |stream.qualities|
    requires stream.url == pre + BitratePlaceholder + mid + CustomAttributesPlaceholder + post + "/" + rest
    requires '/' !in pre && '/' !in mid && '/' !in post
    requires '{' !in pre && '{' !in mid && '{' !in post
    requires '{' !in stream.qualities[qualityLevel].bitrate
    ensures var q := stream.qualities[qualityLevel];
      QualitySegment(stream, qualityLevel) == pre + q.bitrate + mid + CustomAttributesString(q.customAttributes) + post
  {
    var q := stream.qualities[qualityLevel];
    var first := pre + BitratePlaceholder + mid + CustomAttributesPlaceholder + post;
    assert '/' !in BitratePlaceholder && '/' !in CustomAttributesPlaceholder;
    SplitJoin(first, [], rest);
    assert stream.url == first + "/" + [] + rest;
    SubstituteBitrate(pre, mid, post, q.bitrate);
    SubstituteAttributes(pre + q.bitrate + mid, post, CustomAttributesString(q.customAttributes));
  }

  lemma SubstituteBitrate(pre: string, mid: string, post: string, bitrate: string)
    requires '{' !in pre && '{' !in mid && '{' !in post
    ensures Replace(pre + BitratePlaceholder + mid + CustomAttributesPlaceholder + post, BitratePlaceholder, bitrate)
        == pre + bitrate + mid + CustomAttributesPlaceholder + post
  {
    var bp, cp := BitratePlaceholder, CustomAttributesPlaceholder + post;
    assert Replace(pre + bp + (mid + cp), bp, bitrate) == pre + bitrate + (mid + cp) by {
      PlaceholderMisses(post, bitrate);
      ReplaceFirstOnly(pre, mid, cp, bp, bitrate);
    }
    assert pre + bp + mid + CustomAttributesPlaceholder + post == pre + bp + (mid + cp);
    assert pre + bitrate + mid + CustomAttributesPlaceholder + post == pre + bitrate + (mid + cp);
  }

  lemma PlaceholderMisses(post: string, bitrate: string)
    requires '{' !in post
    ensures Replace(CustomAttributesPlaceholder + post, BitratePlaceholder, bitrate) == CustomAttributesPlaceholder + post
  {
    var cp := CustomAttributesPlaceholder + post;
    assert cp[1] != BitratePlaceholder[1];
    assert !StartsWith(cp, BitratePlaceholder);
    assert cp[1..] == CustomAttributesPlaceholder[1..] + post;
    assert '{' !in CustomAttributesPlaceholder[1..];
    ReplaceMisses(cp, BitratePlaceholder, bitrate);
  }

  lemma SubstituteAttributes(front: string, post: string, attributes: string)
    requires '{' !in front && '{' !in post
    ensures Replace(front + CustomAttributesPlaceholder + post, CustomAttributesPlaceholder, attributes)
        == front + attributes + post
  {
    ReplaceInfix(front, post, CustomAttributesPlaceholder, attributes);
    AbsentChar(post, CustomAttributesPlaceholder, 0);
    ReplaceAbsent(post, CustomAttributesPlaceholder, attributes);
  }

  /** With a template whose second segment is `<pre>{start time}<post>`, as
      in `.../Fragments(video={start time})`, the name segment is
      `<pre><token><post>`, the token being `t` when the chunk carries it and
      the decimal rendering of the running index otherwise. */
  lemma NameSegmentFragments(template: string, first: string, pre: string, post: string, chunk: Chunk, i: int)
    requires template == first + "/" + pre + StartTimePlaceholder + post
    requires '/' !in first && '/' !in pre && '/' !in post && '{' !in pre && '{' !in post
    ensures NameSegment(template, chunk, i) == Some(pre + StartToken(chunk, i) + post)
    ensures chunk.t.Some? ==> NameSegment(template, chunk, i) == Some(pre + chunk.t.value + post)
    ensures chunk.t.None? ==> NameSegment(template, chunk, i) == Some(pre + IntToString(i) + post)
  {
    var second := pre + StartTimePlaceholder + post;
    assert '/' !in StartTimePlaceholder;
    SplitJoin(first, second, []);
    assert template == first + "/" + second + [];
    ReplaceInfix(pre, post, StartTimePlaceholder, StartToken(chunk, i));
    AbsentChar(post, StartTimePlaceholder, 0);
    ReplaceAbsent(post, StartTimePlaceholder, StartToken(chunk, i));
  }

  /** Distinct quality and name segments give distinct URLs under one base:
      the URL determines both segments when the quality segment has no slash. */
  lemma ChunkUrlInjective(baseUrl: string, q1: string, n1: string, q2: string, n2: string)
    requires '/' !in q1 && '/' !in q2
    requires ChunkUrl(baseUrl, q1, n1) == ChunkUrl(baseUrl, q2, n2)
    ensures q1 == q2 && n1 == n2
  {
    var u := ChunkUrl(baseUrl, q1, n1);
    var tail := u[|baseUrl| + 1..];
    assert tail == q1 + "/" + n1 == q1 + "/" + [] + n1;
    assert tail == q2 + "/" + n2 == q2 + "/" + [] + n2;
    SplitJoin(q1, [], n1);
    SplitJoin(q2, [], n2);
    assert n1 == tail[|q1| + 1..];
    assert n2 == tail[|q2| + 1..];
  }

  /** Only a transport-level failure is recorded as status 0 against the
      probed URL when the origin never answers 0 itself. */
  lemma StatusZeroMeansBadStatusLine(baseUrl: string, quality: string, name: string, probe: string -> Response)
    requires var resp := probe(ChunkUrl(baseUrl, quality, name)); !resp.BadStatusLine? ==> resp.code != 0
    ensures CheckSingleChunk(baseUrl, quality, name, probe).status == BadStatus <==>
      probe(ChunkUrl(baseUrl, quality, name)).BadStatusLine?
  {
  }
}
