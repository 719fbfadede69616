/** Firmware metadata: the record, its exported mapping, the HEAD size probe and the manifest resolver. */
module FwMetadata {
  import opened Wrappers
  import opened Errors
  import opened Json
  import opened Text
  import opened ApiConst

  /** The latest firmware a manifest offers. `url`, `releaseNotes` and `changelogUrl` hold whatever JSON
      value the manifest carried; `size` is unknown when the probe could not determine it. */
  datatype FirmwareMetadata = FirmwareMetadata(
    product: string,
    version: string,
    url: Json,
    integrity: string,
    size: Option<nat>,
    releaseNotes: Json,
    changelogUrl: Json)

  const METADATA_KEYS: set<string> :=
    {"product", "version", "url", "integrity", "size", "release_notes", "changelog_url"}

  /** `FirmwareMetadata.to_dict` */
  function ToDict(m: FirmwareMetadata): (d: map<string, Json>)
    ensures d.Keys == METADATA_KEYS
    ensures FromDict(d) == Some(m)
  {
    map[
      "product" := JStr(m.product),
      "version" := JStr(m.version),
      "url" := m.url,
      "integrity" := JStr(m.integrity),
      "size" := if m.size.Some? then JNum(m.size.value) else JNull,
      "release_notes" := m.releaseNotes,
      "changelog_url" := m.changelogUrl
    ]
  }

  /** Reading an exported mapping back: the partner of `ToDict`. */
  function FromDict(d: map<string, Json>): (r: Option<FirmwareMetadata>)
    ensures r.Some? ==> d.Keys >= METADATA_KEYS
  {
    if !(d.Keys >= METADATA_KEYS) then None
    else if !d["product"].JStr? || !d["version"].JStr? || !d["integrity"].JStr? then None
    else
      var size := d["size"];
      if size.JNull? then
        Some(FirmwareMetadata(d["product"].s, d["version"].s, d["url"], d["integrity"].s, None,
                              d["release_notes"], d["changelog_url"]))
      else if size.JNum? && size.n >= 0 then
        Some(FirmwareMetadata(d["product"].s, d["version"].s, d["url"], d["integrity"].s, Some(size.n),
                              d["release_notes"], d["changelog_url"]))
      else None
  }

  // ---------------------------------------------------------------------------
  // HEAD size probe
  // ---------------------------------------------------------------------------

  /** The answer to the HEAD request: a network error, timeout or other exception, or a response. */
  datatype HeadReply = HeadFailed | HeadReply(status: int, contentLength: Option<string>)

  /** `async_get_firmware_size`: the `Content-Length` of a 200 answer; unknown in every other case. */
  function ProbeSize(reply: HeadReply): (r: Option<nat>)
    ensures r.Some? <==>
      reply.HeadReply? && reply.status == 200 && reply.contentLength.Some?
      && ParseInt(reply.contentLength.value).Some?
    ensures r.Some? ==> r == ParseInt(reply.contentLength.value)
  {
    match reply
    case HeadFailed => None
    case HeadReply(status, contentLength) =>
      if status != 200 then None
      else if contentLength.None? || contentLength.value == "" then None
      else ParseInt(contentLength.value)
  }

  /** A 200 answer announcing `n` bytes makes the probe report exactly `n`. */
  lemma ProbeSizeReadsContentLength(n: nat)
    ensures ProbeSize(HeadReply(200, Some(ToDecimal(n)))) == Some(n)
  {
    ParseIntRoundTrip(n);
  }

  // ---------------------------------------------------------------------------
  // Manifest resolver
  // ---------------------------------------------------------------------------

  /** The answer to the manifest GET: a network error or timeout, or a response whose body may not be JSON. */
  datatype MetadataReply = MetadataUnreachable | MetadataReply(status: int, body: Option<Json>)

  /** The HTTP requests the resolver issues. */
  datatype Fetch = GetUrl(url: string) | HeadUrl(target: Json)

  /** The resolver's outcome: no update (`Ok(None)`), an update, or an error; and what it fetched. */
  datatype Resolution = Resolution(result: Result<Option<FirmwareMetadata>, Error>, fetched: seq<Fetch>)

  const VERSIONS_FILE: string := "/versions.json"

  /** The manifest location of a product model. */
  function MetadataUrl(productModel: string): (url: string)
    ensures StartsWith(url, METADATA_BASE_FW_URL) && EndsWith(url, VERSIONS_FILE)
    ensures |url| == |METADATA_BASE_FW_URL| + |productModel| + |VERSIONS_FILE|
    ensures url[|METADATA_BASE_FW_URL|..|url| - |VERSIONS_FILE|] == Lower(productModel)
  {
    var url := METADATA_BASE_FW_URL + Lower(productModel) + VERSIONS_FILE;
    assert url[|METADATA_BASE_FW_URL|..|url| - |VERSIONS_FILE|] == Lower(productModel);
    url
  }

  /** Two models share a manifest exactly when they agree up to letter case. */
  lemma MetadataUrlIgnoresCase(a: string, b: string)
    ensures MetadataUrl(a) == MetadataUrl(b) <==> Lower(a) == Lower(b)
  {
    if MetadataUrl(a) == MetadataUrl(b) {
      var u := MetadataUrl(a);
      assert Lower(a) == u[|METADATA_BASE_FW_URL|..|u| - |VERSIONS_FILE|] == Lower(b);
    }
  }

  const SHA256_PREFIX: string := "sha256:"

  /** `async_get_latest_firmware_metadata(product_model, current_version)`. */
  function ResolveLatest(productModel: string, currentVersion: string, reply: MetadataReply, head: HeadReply): (r: Resolution)
    ensures |r.fetched| >= 1 && r.fetched[0] == GetUrl(MetadataUrl(productModel))
    ensures r.result == Err(MetadataError) <==>
      reply.MetadataUnreachable? || reply.status != 200 || reply.body.None?
    ensures r.result.Err? ==> r.result.error in {MetadataError, AttributeError, TypeError}
    ensures r.result.Ok? && r.result.value.Some? ==>
      var m := r.result.value.value;
      && m.product == productModel
      && Less(currentVersion, m.version)
      && StartsWith(Lower(m.integrity), SHA256_PREFIX)
      && Truthy(m.url)
      && m.size == ProbeSize(head)
      && r.fetched == [GetUrl(MetadataUrl(productModel)), HeadUrl(m.url)]
  {
    var get := GetUrl(MetadataUrl(productModel));
    if reply.MetadataUnreachable? || reply.status != 200 || reply.body.None? then
      Resolution(Err(MetadataError), [get])
    else if !reply.body.value.JObj? then
      Resolution(Err(AttributeError), [get])
    else
      var top := reply.body.value.fields;
      if Get(top, "product", JNull) != JStr(productModel) then
        Resolution(Ok(None), [get])
      else
        var info := Get(top, "latest_version", JNull);
        var changelog := Get(top, "changelog", JNull);
        if !Truthy(info) then Resolution(Ok(None), [get])
        else if !info.JObj? then Resolution(Err(AttributeError), [get])
        else
          var version := Get(info.fields, "version", JNull);
          var url := Get(info.fields, "url", JNull);
          var integrity := Get(info.fields, "integrity", JStr(""));
          var notes := Get(info.fields, "release_notes", JStr(""));
          if !Truthy(version) || !Truthy(url) || !Truthy(integrity) then
            Resolution(Ok(None), [get])
          else if !integrity.JStr? then
            Resolution(Err(AttributeError), [get])
          else if !StartsWith(Lower(integrity.s), SHA256_PREFIX) then
            Resolution(Ok(None), [get])
          else
            var fetched := [get, HeadUrl(url)];
            var size := ProbeSize(head);
            if !version.JStr? then Resolution(Err(TypeError), fetched)
            else if Less(currentVersion, version.s) then
              Resolution(Ok(Some(FirmwareMetadata(productModel, version.s, url, integrity.s, size, notes, changelog))), fetched)
            else Resolution(Ok(None), fetched)
  }

  /** A manifest for another product (the comparison is case-sensitive) means no update, not an error. */
  lemma ProductMismatchIsNoUpdate(productModel: string, currentVersion: string, top: map<string, Json>, head: HeadReply)
    requires Get(top, "product", JNull) != JStr(productModel)
    ensures ResolveLatest(productModel, currentVersion, MetadataReply(200, Some(JObj(top))), head)
            == Resolution(Ok(None), [GetUrl(MetadataUrl(productModel))])
  {
  }

  /** A manifest lacking the latest-version record, or with an empty version, url or integrity,
      means no update, not an error. */
  lemma IncompleteManifestIsNoUpdate(productModel: string, currentVersion: string, top: map<string, Json>, head: HeadReply)
    requires Get(top, "product", JNull) == JStr(productModel)
    requires var info := Get(top, "latest_version", JNull);
      || !Truthy(info)
      || (info.JObj? && (
           || !Truthy(Get(info.fields, "version", JNull))
           || !Truthy(Get(info.fields, "url", JNull))
           || !Truthy(Get(info.fields, "integrity", JStr("")))))
    ensures ResolveLatest(productModel, currentVersion, MetadataReply(200, Some(JObj(top))), head)
            == Resolution(Ok(None), [GetUrl(MetadataUrl(productModel))])
  {
  }

  /** An integrity string of any scheme other than `sha256:` (in any letter case) means no update. */
  lemma OtherIntegritySchemeIsNoUpdate(productModel: string, currentVersion: string, top: map<string, Json>,
                                       info: map<string, Json>, integrity: string, head: HeadReply)
    requires Get(top, "product", JNull) == JStr(productModel)
    requires Get(top, "latest_version", JNull) == JObj(info)
    requires Truthy(Get(info, "version", JNull)) && Truthy(Get(info, "url", JNull))
    requires Get(info, "integrity", JStr("")) == JStr(integrity) && integrity != ""
    requires !StartsWith(Lower(integrity), SHA256_PREFIX)
    ensures ResolveLatest(productModel, currentVersion, MetadataReply(200, Some(JObj(top))), head)
            == Resolution(Ok(None), [GetUrl(MetadataUrl(productModel))])
  {
  }

  /** For a well-formed manifest the resolver offers the update exactly when the manifest's version sorts
      after the installed one as a plain string, and the offer carries the manifest's fields, the
      unstripped integrity string and the probed size. */
  lemma VersionGate(productModel: string, currentVersion: string, top: map<string, Json>,
                    info: map<string, Json>, version: string, integrity: string, head: HeadReply)
    requires Get(top, "product", JNull) == JStr(productModel)
    requires Get(top, "latest_version", JNull) == JObj(info)
    requires Get(info, "version", JNull) == JStr(version) && version != ""
    requires Truthy(Get(info, "url", JNull))
    requires Get(info, "integrity", JStr("")) == JStr(integrity)
    requires StartsWith(Lower(integrity), SHA256_PREFIX)
    ensures var r := ResolveLatest(productModel, currentVersion, MetadataReply(200, Some(JObj(top))), head);
      r.result == if Less(currentVersion, version) then
        Ok(Some(FirmwareMetadata(productModel, version, info["url"], integrity, ProbeSize(head),
                                 Get(info, "release_notes", JStr("")), Get(top, "changelog", JNull))))
      else Ok(None)
  {
    assert info != map[] by {
      assert "version" in info;
    }
  }

  /** The version gate is plain string ordering: "1.10.0" does not count as newer than "1.9.0". */
  lemma VersionGateIsLexicographic()
    ensures !Less("1.9.0", "1.10.0")
    ensures Less("1.10.0", "1.9.0")
  {
    assert "1.9.0"[1..] == ".9.0" && "1.10.0"[1..] == ".10.0";
    assert ".9.0"[1..] == "9.0" && ".10.0"[1..] == "10.0";
  }
}
