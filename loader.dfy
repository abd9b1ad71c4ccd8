/** Loading a manifest (`get_manifest`): choosing the URL to fetch, deriving
    the base URL the chunk paths are joined to, checking the format version
    and refining the base URL from the `Clip` element. Fetching a URL and
    reading a local file are parameters: each gives the parsed manifest, or
    `None` when the fetch, the write or the parse fails. */
module Loader {
  import opened Wrappers
  import opened Strings
  import opened SmoothManifest

  /** The segment appended to a URL that does not already name a manifest. */
  const DefaultManifest: string := "/Manifest"

  /** Endings, compared after lower-casing, that already name a manifest. */
  const ManifestSuffixes: seq<string> := ["/manifest", ".ismc", ".csm"]

  /** The only supported `MajorVersion`. */
  const SupportedVersion: string := "2"

  datatype LoadError =
    | Unreadable(source: string)            // fetch, file write or XML parse failed
    | MissingVersion                        // root has no MajorVersion (KeyError)
    | UnsupportedVersion(version: string)   // MajorVersion other than "2"

  datatype Loaded = Loaded(manifest: Manifest, baseUrl: string)

  predicate IsNetworkLocator(url: string)
  {
    StartsWith(url, "http://")
  }

  predicate NamesManifest(url: string)
  {
    exists i :: 0 <= i < |ManifestSuffixes| && EndsWith(Lower(url), ManifestSuffixes[i])
  }

  /** The URL that is fetched for a network locator. */
  function FetchUrl(url: string): string
  {
    if NamesManifest(url) then url else url + DefaultManifest
  }

  /** The base URL derived from a network locator, with a trailing
      manifest segment (in any letter case) cut off. This is the corrected
      form of what the source writes; see StrippedBaseAsWritten. */
  function StrippedBase(url: string): string
  {
    if EndsWith(Lower(url), "/manifest") then url[..|url| - |DefaultManifest|] else url
  }

  /** The base URL exactly as the source computes it: the suffix test is
      case-insensitive but the cut `base_url[:base_url.rfind('/Manifest')]`
      looks for the last capitalised segment only, wherever it is, and a -1
      from `rfind` makes the slice drop the last character. */
  function StrippedBaseAsWritten(url: string): (r: string)
    ensures StartsWith(url, r)
    ensures r == url <==> !EndsWith(Lower(url), "/manifest")
  {
    if EndsWith(Lower(url), "/manifest") then SliceTo(url, RFind(url, DefaultManifest)) else url
  }

  /** The best-effort refinement from `Clip/@Url`: lower-cased, with every
      `/manifest` removed; the base URL is kept when there is no such
      attribute. */
  function RefinedBase(m: Manifest, base: string): string
  {
    match m.clipUrl
    case Some(clip) => Replace(Lower(clip), "/manifest", "")
    case None => base
  }

  /** The parsed manifest for a locator: fetched when it is a network
      locator, read from the path otherwise. */
  function Source(url: string, fetch: string -> Option<Manifest>, readLocal: string -> Option<Manifest>): Option<Manifest>
  {
    if IsNetworkLocator(url) then fetch(FetchUrl(url)) else readLocal(url)
  }

  /** The outcome of `get_manifest` with a given cut of the network
      locator: the manifest, or the error raised before it is returned. */
  function LoadWith(url: string, fetch: string -> Option<Manifest>, readLocal: string -> Option<Manifest>, networkBase: string): Result<Loaded, LoadError>
  {
    match Source(url, fetch, readLocal)
    case None => Err(Unreadable(if IsNetworkLocator(url) then FetchUrl(url) else url))
    case Some(m) =>
      match m.majorVersion
      case None => Err(MissingVersion)
      case Some(v) =>
        if v != SupportedVersion then Err(UnsupportedVersion(v))
        else Ok(Loaded(m, RefinedBase(m, if IsNetworkLocator(url) then networkBase else url)))
  }

  /** What `get_manifest` returns, or the error it raises, with the base URL
      cut as the source writes it (StrippedBaseAsWritten). */
  function Load(url: string, fetch: string -> Option<Manifest>, readLocal: string -> Option<Manifest>): Result<Loaded, LoadError>
  {
    LoadWith(url, fetch, readLocal, StrippedBaseAsWritten(url))
  }

  /** `get_manifest` with the corrected cut (StrippedBase): a trailing
      manifest segment is removed in any letter case. */
  function LoadCorrected(url: string, fetch: string -> Option<Manifest>, readLocal: string -> Option<Manifest>): Result<Loaded, LoadError>
  {
    LoadWith(url, fetch, readLocal, StrippedBase(url))
  }

  /** `get_manifest`, step by step as the source reassigns its variables,
      including the case-sensitive `rfind` cut of line 58. */
  method GetManifest(url: string, fetch: string -> Option<Manifest>, readLocal: string -> Option<Manifest>)
    returns (r: Result<Loaded, LoadError>)
    ensures r == Load(url, fetch, readLocal)
  {
    var baseUrl := url;
    var parsed: Option<Manifest>;
    if StartsWith(baseUrl, "http://") {
      var manifestUrl := baseUrl;
      if !NamesManifest(manifestUrl) {
        manifestUrl := manifestUrl + DefaultManifest;
      }
      if EndsWith(Lower(baseUrl), "/manifest") {
        baseUrl := SliceTo(baseUrl, RFind(baseUrl, DefaultManifest));
      }
      parsed := fetch(manifestUrl);
      if parsed.None? {
        return Err(Unreadable(manifestUrl));
      }
    } else {
      parsed := readLocal(baseUrl);
      if parsed.None? {
        return Err(Unreadable(baseUrl));
      }
    }
    var manifest := parsed.value;
    if manifest.majorVersion.None? {
      return Err(MissingVersion);
    }
    if manifest.majorVersion.value != SupportedVersion {
      return Err(UnsupportedVersion(manifest.majorVersion.value));
    }
    if manifest.clipUrl.Some? {
      baseUrl := Replace(Lower(manifest.clipUrl.value), "/manifest", "");
    }
    r := Ok(Loaded(manifest, baseUrl));
  }

  // ---------------------------------------------------------------------
  // Properties
  // ---------------------------------------------------------------------

  lemma LowerDefaultManifest()
    ensures Lower(DefaultManifest) == "/manifest"
  {
    var l := Lower(DefaultManifest);
    assert l[0] == '/' && l[1] == 'm' && l[2] == 'a' && l[3] == 'n' && l[4] == 'i';
    assert l[5] == 'f' && l[6] == 'e' && l[7] == 's' && l[8] == 't';
  }

  /** The fetched URL always extends the locator, always names a manifest,
      equals the locator exactly when the locator already names one, and
      normalising twice changes nothing. */
  lemma FetchUrlNormalises(url: string)
    ensures StartsWith(FetchUrl(url), url)
    ensures NamesManifest(FetchUrl(url))
    ensures FetchUrl(url) == url <==> NamesManifest(url)
    ensures FetchUrl(url) == url || FetchUrl(url) == url + DefaultManifest
    ensures FetchUrl(FetchUrl(url)) == FetchUrl(url)
  {
    if !NamesManifest(url) {
      var f := url + DefaultManifest;
      assert f[..|url|] == url;
      LowerConcat(url, DefaultManifest);
      LowerDefaultManifest();
      assert EndsWith(Lower(f), ManifestSuffixes[0]);
    }
  }

  /** Where the locator ends in exactly `/Manifest`, the source's cut and the
      corrected one agree: that segment is removed. */
  lemma StrippedBaseOnCapitalised(url: string)
    requires EndsWith(url, DefaultManifest)
    ensures StrippedBaseAsWritten(url) == StrippedBase(url) == url[..|url| - |DefaultManifest|]
  {
    var n := |url| - |DefaultManifest|;
    assert url == url[..n] + DefaultManifest;
    LowerConcat(url[..n], DefaultManifest);
    LowerDefaultManifest();
    assert EndsWith(Lower(url), "/manifest");
    assert OccursAt(url, DefaultManifest, n);
    var k := RFind(url, DefaultManifest);
    assert k == n;
  }

  /** The corrected base is the locator minus a trailing manifest segment in
      any letter case, and the locator itself otherwise. */
  lemma StrippedBaseRemovesSuffix(url: string)
    ensures EndsWith(Lower(url), "/manifest") ==>
      var n := |url| - |DefaultManifest|;
      StrippedBase(url) + url[n..] == url && Lower(url[n..]) == "/manifest"
    ensures !EndsWith(Lower(url), "/manifest") ==> StrippedBase(url) == url
  {
    if EndsWith(Lower(url), "/manifest") {
      var n := |url| - |DefaultManifest|;
      assert url == url[..n] + url[n..];
      LowerConcat(url[..n], url[n..]);
    }
  }

  /** The source's cut on a locator ending in a manifest segment not
      spelled `/Manifest`, when `/Manifest` occurs nowhere in the locator:
      `rfind` finds nothing, so only the last character goes, and the result
      differs from the corrected base. */
  lemma StrippedBaseAsWrittenDropsOneChar(url: string)
    requires EndsWith(Lower(url), "/manifest") && !Occurs(url, DefaultManifest)
    ensures StrippedBaseAsWritten(url) == url[..|url| - 1]
    ensures StrippedBaseAsWritten(url) != StrippedBase(url)
  {
  }

  /** The other half of the case split: when `/Manifest` does occur in a
      locator ending in a manifest segment, the source cuts at its last
      occurrence. Unless the locator ends in exactly `/Manifest`, that cut
      lies before the trailing segment, so it keeps less than the corrected
      base. */
  lemma StrippedBaseAsWrittenCutsAtLast(url: string)
    requires EndsWith(Lower(url), "/manifest") && Occurs(url, DefaultManifest)
    ensures 0 <= RFind(url, DefaultManifest) <= |url| - |DefaultManifest|
    ensures StrippedBaseAsWritten(url) == url[..RFind(url, DefaultManifest)]
    ensures !EndsWith(url, DefaultManifest) ==> |StrippedBaseAsWritten(url)| < |StrippedBase(url)|
  {
    var n := |url| - |DefaultManifest|;
    if !EndsWith(url, DefaultManifest) {
      assert !OccursAt(url, DefaultManifest, n);
    }
  }

  /** A concrete locator with `/Manifest` earlier in its path:
      `http://h/Manifest/v/manifest` is cut to `http://h`, while the
      corrected base is `http://h/Manifest/v`. */
  lemma StrippedBaseAsWrittenEarlierExample(url: string)
    requires url == "http://h/Manifest/v/manifest"
    ensures StrippedBaseAsWritten(url) == "http://h"
    ensures StrippedBase(url) == "http://h/Manifest/v"
  {
    EarlierLocatorEndsInManifest(url);
    EarlierLocatorLastManifest(url);
    StrippedBaseAsWrittenCutsAtLast(url);
    assert url[..8] == "http://h";
    assert url[..|url| - |DefaultManifest|] == "http://h/Manifest/v";
  }

  lemma EarlierLocatorEndsInManifest(url: string)
    requires url == "http://h/Manifest/v/manifest"
    ensures EndsWith(Lower(url), "/manifest")
  {
    var front := "http://h/Manifest/v";
    assert url == front + "/manifest";
    LowerConcat(front, "/manifest");
    LowerManifestSegment();
    assert Lower(url)[|url| - 9..] == "/manifest";
  }

  lemma EarlierLocatorLastManifest(url: string)
    requires url == "http://h/Manifest/v/manifest"
    ensures RFind(url, DefaultManifest) == 8
  {
    assert OccursAt(url, DefaultManifest, 8) by {
      assert url[8..17] == DefaultManifest;
    }
    forall j | 8 < j && j + 9 <= |url| ensures !OccursAt(url, DefaultManifest, j) {
      assert url[j..j + 9][1] == url[j + 1];
      assert url[j + 1] != 'M';
    }
  }

  lemma LowerManifestSegment()
    ensures Lower("/manifest") == "/manifest"
  {
    var l := Lower("/manifest");
    assert l[0] == '/' && l[1] == 'm' && l[2] == 'a' && l[3] == 'n' && l[4] == 'i';
    assert l[5] == 'f' && l[6] == 'e' && l[7] == 's' && l[8] == 't';
  }

  /** A concrete locator that shows it. */
  lemma StrippedBaseAsWrittenExample(url: string)
    requires url == "http://h/v/manifest"
    ensures StrippedBaseAsWritten(url) == "http://h/v/manifes"
    ensures StrippedBase(url) == "http://h/v"
  {
    LowerCaseLocator(url);
    StrippedBaseAsWrittenDropsOneChar(url);
  }

  lemma LowerCaseLocator(url: string)
    requires url == "http://h/v/manifest"
    ensures EndsWith(Lower(url), "/manifest") && !Occurs(url, DefaultManifest)
  {
    var front := "http://h/v";
    assert url == front + "/manifest";
    LowerConcat(front, "/manifest");
    LowerManifestSegment();
    assert Lower(url)[|url| - 9..] == "/manifest";
    AbsentChar(url, DefaultManifest, 1);
  }

  /** The refined base from a `Clip` URL is always lower case. */
  lemma RefinedBaseIsLower(m: Manifest, base: string)
    requires m.clipUrl.Some?
    ensures IsLower(RefinedBase(m, base))
  {
    LowerIsLower(m.clipUrl.value);
    ReplaceKeepsLower(Lower(m.clipUrl.value), "/manifest", "");
  }

  /** A `Clip` URL that ends in a manifest segment and has no other one
      yields its lower-cased remainder. */
  lemma RefinedBaseStripsClipManifest(m: Manifest, base: string, front: string, tail: string)
    requires m.clipUrl == Some(front + tail)
    requires Lower(tail) == "/manifest" && !Occurs(Lower(front), "/manifest")
    ensures RefinedBase(m, base) == Lower(front)
  {
    LowerConcat(front, tail);
    var p := "/manifest";
    assert p[1..] == "manifest";
    ReplaceConcat(Lower(front), p, p, "");
    ReplaceAbsent(Lower(front), p, "");
    assert StartsWith(p, p);
    assert p[|p|..] == [];
    assert Lower(front) + "" == Lower(front);
  }

  /** Loading succeeds exactly when the manifest could be obtained and its
      version is "2"; on success the manifest is the one obtained, and the
      base URL is the refined `Clip` URL when there is one and otherwise the
      locator cut as the source writes it (network) or the path itself
      (local). */
  lemma LoadOutcome(url: string, fetch: string -> Option<Manifest>, readLocal: string -> Option<Manifest>)
    ensures Load(url, fetch, readLocal).Ok? <==>
      Source(url, fetch, readLocal).Some? && Source(url, fetch, readLocal).value.majorVersion == Some(SupportedVersion)
    ensures Load(url, fetch, readLocal).Ok? ==>
      var l := Load(url, fetch, readLocal).value;
      l.manifest == Source(url, fetch, readLocal).value &&
      (l.manifest.clipUrl.Some? ==> l.baseUrl == Replace(Lower(l.manifest.clipUrl.value), "/manifest", "")) &&
      (l.manifest.clipUrl.None? ==> l.baseUrl == if IsNetworkLocator(url) then StrippedBaseAsWritten(url) else url)
  {
  }

  /** The corrected load fails exactly when the source's does, with the
      same error, and obtains the same manifest. The base URLs differ only
      for a network locator without a `Clip` URL whose manifest segment is
      not spelled `/Manifest`: there the source's base keeps all but the
      last character when `/Manifest` occurs nowhere in the locator, and
      is cut at the last `/Manifest` otherwise, while the corrected one
      drops exactly the trailing segment. */
  lemma LoadCorrectedAgrees(url: string, fetch: string -> Option<Manifest>, readLocal: string -> Option<Manifest>)
    ensures Load(url, fetch, readLocal).Err? <==> LoadCorrected(url, fetch, readLocal).Err?
    ensures Load(url, fetch, readLocal).Err? ==> Load(url, fetch, readLocal) == LoadCorrected(url, fetch, readLocal)
    ensures Load(url, fetch, readLocal).Ok? ==>
      Load(url, fetch, readLocal).value.manifest == LoadCorrected(url, fetch, readLocal).value.manifest
    ensures Load(url, fetch, readLocal).Ok? ==>
      (Load(url, fetch, readLocal) != LoadCorrected(url, fetch, readLocal) <==>
        IsNetworkLocator(url) && Load(url, fetch, readLocal).value.manifest.clipUrl.None? &&
        StrippedBaseAsWritten(url) != StrippedBase(url))
    ensures IsNetworkLocator(url) && EndsWith(url, DefaultManifest) ==>
      Load(url, fetch, readLocal) == LoadCorrected(url, fetch, readLocal)
  {
    if IsNetworkLocator(url) && EndsWith(url, DefaultManifest) {
      StrippedBaseOnCapitalised(url);
    }
  }

  /** On the locator `http://h/v/manifest`, with a version 2 manifest and no
      `Clip` URL, the source loads with base `http://h/v/manifes`; the
      corrected load gives `http://h/v`. */
  lemma LoadAsWrittenExample(url: string, fetch: string -> Option<Manifest>, readLocal: string -> Option<Manifest>, m: Manifest)
    requires url == "http://h/v/manifest"
    requires fetch(url) == Some(m) && m.majorVersion == Some(SupportedVersion) && m.clipUrl.None?
    ensures Load(url, fetch, readLocal) == Ok(Loaded(m, "http://h/v/manifes"))
    ensures LoadCorrected(url, fetch, readLocal) == Ok(Loaded(m, "http://h/v"))
  {
    LowerCaseLocator(url);
    assert EndsWith(Lower(url), ManifestSuffixes[0]);
    assert FetchUrl(url) == url;
    assert IsNetworkLocator(url) by { assert url[..7] == "http://"; }
    StrippedBaseAsWrittenExample(url);
  }

  /** Any other version is refused with the version it found. */
  lemma LoadRejectsOtherVersions(url: string, fetch: string -> Option<Manifest>, readLocal: string -> Option<Manifest>, v: string)
    requires Source(url, fetch, readLocal).Some? && Source(url, fetch, readLocal).value.majorVersion == Some(v)
    requires v != SupportedVersion
    ensures Load(url, fetch, readLocal) == Err(UnsupportedVersion(v))
  {
  }
}
