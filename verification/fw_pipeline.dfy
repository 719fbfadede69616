/** The complete update run, `download_and_transfer`, and the corrected definitions the findings call for. */
module FwPipeline {
  import opened Wrappers
  import opened Errors
  import opened Json
  import opened Bytes
  import opened Text
  import opened ApiConst
  import opened FwMetadata
  import opened FwDownload
  import opened FwTransfer

  /** The run's outcome: the URL the firmware was fetched from, the result, the socket operations towards
      the device and every progress report. */
  datatype Outcome = Outcome(fetched: Json, result: Result<(), Error>, ops: seq<SocketOp>, progress: seq<Report>)

  /** `FirmwareUpdater(host, session).download_and_transfer(metadata, callback)`: download from
      `metadata.url` and verify against `metadata.integrity`, then stream `total_size` bytes to port 9000
      of the device. */
  function DownloadAndTransfer(m: FirmwareMetadata, host: string, dl: DownloadReply, conn: Connection,
                               sha: seq<byte> -> string, callback: bool): (r: Outcome)
    ensures r.fetched == m.url
    ensures var d := Download(m.url, dl, m.integrity, sha, callback);
      d.result.Err? ==> r == Outcome(m.url, Err(d.result.error), [], d.progress)
    ensures var d := Download(m.url, dl, m.integrity, sha, callback);
      d.result.Ok? ==>
        var t := SendFirmware(d.result.value.0, d.result.value.1, host, FW_UPDATE_PORT, conn, callback);
        r == Outcome(m.url, t.result, t.ops, d.progress + t.progress)
    ensures r.ops != [] ==> r.ops[0] == Connect(host, FW_UPDATE_PORT)
  {
    var d := Download(m.url, dl, m.integrity, sha, callback);
    match d.result
    case Err(e) => Outcome(d.fetched, Err(e), [], d.progress)
    case Ok((data, total)) =>
      var t := SendFirmware(data, total, host, FW_UPDATE_PORT, conn, callback);
      Outcome(d.fetched, t.result, t.ops, d.progress + t.progress)
  }

  /** A timeout during the download escapes the run as `asyncio.TimeoutError`, not as a `DownloadError`,
      with the device never contacted; the reports of the chunks received before it stay made. */
  lemma TimeoutEscapesRun(m: FirmwareMetadata, host: string, dl: DownloadReply, conn: Connection,
                          sha: seq<byte> -> string, callback: bool)
    requires dl.DownloadTimedOut? || (Served(dl) && dl.ending == TimedOut)
    ensures var o := DownloadAndTransfer(m, host, dl, conn, sha, callback);
      o.fetched == m.url && o.result == Err(TimeoutError) && o.ops == []
      && o.progress == (if dl.DownloadTimedOut? then [] else
                          DownloadReports(dl.chunks, AnnouncedSize(dl.contentLength).value, callback))
  {
  }

  // ---------------------------------------------------------------------------
  // Finding 1: the resolver keeps the "sha256:" prefix in the integrity string
  // ---------------------------------------------------------------------------

  /** A hex digest never equals, in any letter case, an integrity string that still starts with "sha256:". */
  lemma PrefixedIntegrityNeverMatches(integrity: string, digest: string)
    requires StartsWith(Lower(integrity), SHA256_PREFIX)
    requires IsHex(digest)
    ensures Upper(digest) != Upper(integrity)
  {
    assert Lower(integrity)[6] == ':';
    assert Upper(integrity)[6] == ':';
    if |digest| > 6 {
      assert IsHexDigit(digest[6]);
      assert Upper(digest)[6] != ':';
    }
  }

  /** As written: every update the resolver offers fails the digest check, whatever the server sends,
      so the device is never contacted. */
  lemma ResolvedUpdateNeverInstalls(productModel: string, currentVersion: string, reply: MetadataReply,
                                    head: HeadReply, host: string, dl: DownloadReply, conn: Connection,
                                    sha: seq<byte> -> string, callback: bool)
    requires forall x :: IsHex(sha(x))
    requires ResolveLatest(productModel, currentVersion, reply, head).result.Ok?
    requires ResolveLatest(productModel, currentVersion, reply, head).result.value.Some?
    ensures var m := ResolveLatest(productModel, currentVersion, reply, head).result.value.value;
      var o := DownloadAndTransfer(m, host, dl, conn, sha, callback);
      o.result.Err? && o.result.error != TransferError(TransportFault) && o.ops == []
  {
    var m := ResolveLatest(productModel, currentVersion, reply, head).result.value.value;
    if dl.DownloadReply? {
      PrefixedIntegrityNeverMatches(m.integrity, sha(Flatten(dl.chunks)));
    }
  }

  /** Corrected resolver: the offered update carries the digest after the "sha256:" prefix, stripped,
      as the resolver already computes it before discarding it. */
  function ResolveLatestCorrected(productModel: string, currentVersion: string, reply: MetadataReply, head: HeadReply): (r: Resolution)
    ensures var w := ResolveLatest(productModel, currentVersion, reply, head);
      r.fetched == w.fetched
      && (r.result.Ok? && r.result.value.Some? <==> w.result.Ok? && w.result.value.Some?)
      && (!(w.result.Ok? && w.result.value.Some?) ==> r.result == w.result)
    ensures var w := ResolveLatest(productModel, currentVersion, reply, head);
      r.result.Ok? && r.result.value.Some? ==>
        var m := w.result.value.value;
        r.result.value.value == m.(integrity := Strip(m.integrity[|SHA256_PREFIX|..]))
  {
    var w := ResolveLatest(productModel, currentVersion, reply, head);
    if w.result.Ok? && w.result.value.Some? then
      var m := w.result.value.value;
      Resolution(Ok(Some(m.(integrity := Strip(m.integrity[|SHA256_PREFIX|..])))), w.fetched)
    else w
  }

  // ---------------------------------------------------------------------------
  // Finding 2: the transfer length comes from Content-Length, 0 when the header is absent
  // ---------------------------------------------------------------------------

  /** As written: a verified download served without a Content-Length header transfers no byte of the
      firmware, yet sends the end-of-stream marker and reports success. */
  lemma MissingLengthSendsNothing(m: FirmwareMetadata, host: string, chunks: seq<seq<byte>>,
                                  sha: seq<byte> -> string, callback: bool)
    requires Upper(sha(Flatten(chunks))) == Upper(m.integrity)
    ensures var o := DownloadAndTransfer(m, host, DownloadReply(200, None, chunks, Complete), Opened(None), sha, callback);
      o.result.Ok? && Payload(o.ops) == []
      && o.ops == [Connect(host, FW_UPDATE_PORT), WriteEof, Close]
  {
    ZeroSizeSendsNothing(Flatten(chunks), host, FW_UPDATE_PORT, callback);
    assert Payload([Close]) == [] + Payload([]);
    assert Payload([WriteEof, Close]) == [] + Payload([Close]);
    assert Payload([Connect(host, FW_UPDATE_PORT), WriteEof, Close]) == [] + Payload([WriteEof, Close]);
  }

  /** Corrected run: the transfer sends the whole verified firmware, whatever the header announced. */
  function DownloadAndTransferCorrected(m: FirmwareMetadata, host: string, dl: DownloadReply, conn: Connection,
                                       sha: seq<byte> -> string, callback: bool): (r: Outcome)
    ensures var d := Download(m.url, dl, m.integrity, sha, callback);
      d.result.Err? ==> r == Outcome(m.url, Err(d.result.error), [], d.progress)
    ensures var d := Download(m.url, dl, m.integrity, sha, callback);
      d.result.Ok? ==>
        var t := SendFirmware(d.result.value.0, |d.result.value.0|, host, FW_UPDATE_PORT, conn, callback);
        r == Outcome(m.url, t.result, t.ops, d.progress + t.progress)
  {
    var d := Download(m.url, dl, m.integrity, sha, callback);
    match d.result
    case Err(e) => Outcome(d.fetched, Err(e), [], d.progress)
    case Ok((data, _)) =>
      var t := SendFirmware(data, |data|, host, FW_UPDATE_PORT, conn, callback);
      Outcome(d.fetched, t.result, t.ops, d.progress + t.progress)
  }

  /** Corrected run: a successful run has handed the device exactly the firmware it downloaded. */
  lemma CorrectedRunDeliversFirmware(m: FirmwareMetadata, host: string, dl: DownloadReply, conn: Connection,
                                     sha: seq<byte> -> string, callback: bool)
    requires DownloadAndTransferCorrected(m, host, dl, conn, sha, callback).result.Ok?
    ensures Payload(DownloadAndTransferCorrected(m, host, dl, conn, sha, callback).ops) == Flatten(dl.chunks)
  {
    var d := Download(m.url, dl, m.integrity, sha, callback);
    var data := d.result.value.0;
    TransferDeliversAnnouncedBytes(data, |data|, host, FW_UPDATE_PORT, conn, callback);
  }

  /** Percentages that never go backwards. */
  predicate NonDecreasing(rs: seq<Report>) {
    forall i, j :: 0 <= i <= j < |rs| ==> rs[i].percent <= rs[j].percent
  }

  /** Two non-decreasing runs of reports, the first at or below a mark and the second at or above it,
      make one non-decreasing run. */
  lemma JoinNonDecreasing(a: seq<Report>, b: seq<Report>, mark: int)
    requires NonDecreasing(a) && NonDecreasing(b)
    requires forall i :: 0 <= i < |a| ==> a[i].percent <= mark
    requires forall i :: 0 <= i < |b| ==> mark <= b[i].percent
    ensures NonDecreasing(a + b)
  {
    var c := a + b;
    forall i, j | 0 <= i <= j < |c|
      ensures c[i].percent <= c[j].percent
    {
      if j < |a| {
        assert c[i] == a[i] && c[j] == a[j];
      } else if i < |a| {
        assert c[i] == a[i] && c[j] == b[j - |a|];
      } else {
        assert c[i] == b[i - |a|] && c[j] == b[j - |a|];
      }
    }
  }

  /** With a correct Content-Length the corrected run reports progress that never goes backwards and,
      after a successful run with a callback and a non-empty firmware, ends at 100%. */
  lemma CorrectedProgressSweep(m: FirmwareMetadata, host: string, chunks: seq<seq<byte>>, conn: Connection,
                               sha: seq<byte> -> string)
    requires |Flatten(chunks)| > 0
    ensures var dl := DownloadReply(200, Some(ToDecimal(|Flatten(chunks)|)), chunks, Complete);
      NonDecreasing(DownloadAndTransferCorrected(m, host, dl, conn, sha, true).progress)
    ensures var dl := DownloadReply(200, Some(ToDecimal(|Flatten(chunks)|)), chunks, Complete);
      var o := DownloadAndTransferCorrected(m, host, dl, conn, sha, true);
      o.result.Ok? ==> o.progress != [] && o.progress[|o.progress| - 1].percent == DOWNLOAD_WEIGHT + TRANSFER_WEIGHT
  {
    var data := Flatten(chunks);
    var n := |data|;
    var dl := DownloadReply(200, Some(ToDecimal(n)), chunks, Complete);
    var d := Download(m.url, dl, m.integrity, sha, true);
    var o := DownloadAndTransferCorrected(m, host, dl, conn, sha, true);
    var ds := DownloadReports(chunks, n, true);
    assert d.progress == ds by {
      ParseIntRoundTrip(n);
      assert AnnouncedSize(dl.contentLength) == Ok(n);
    }
    DownloadReportsOfRun(chunks, n);
    if d.result.Ok? {
      var t := SendFirmware(data, n, host, FW_UPDATE_PORT, conn, true);
      assert o == Outcome(m.url, t.result, t.ops, ds + t.progress) by {
        assert d.result.value.0 == data;
      }
      TransferReportsOfRun(data, n, host, conn);
      JoinNonDecreasing(ds, t.progress, DOWNLOAD_WEIGHT);
    } else {
      assert o.progress == ds;
    }
  }

  /** The reports of a download whose Content-Length is exact: non-decreasing and within 0..50. */
  lemma DownloadReportsOfRun(chunks: seq<seq<byte>>, n: nat)
    requires n == |Flatten(chunks)|
    ensures NonDecreasing(DownloadReports(chunks, n, true))
    ensures forall i :: 0 <= i < |DownloadReports(chunks, n, true)| ==>
      DownloadReports(chunks, n, true)[i].percent <= DOWNLOAD_WEIGHT
  {
    DownloadProgressMonotone(chunks, n, true);
    DownloadProgressBounded(chunks, n, true);
  }

  /** The reports of one transfer of the whole firmware: non-decreasing, in the upper half of the scale,
      and ending at 100% when the transfer succeeds. */
  lemma TransferReportsOfRun(data: seq<byte>, n: nat, host: string, conn: Connection)
    requires n == |data| > 0
    ensures var t := SendFirmware(data, n, host, FW_UPDATE_PORT, conn, true);
      NonDecreasing(t.progress)
      && (forall i :: 0 <= i < |t.progress| ==> DOWNLOAD_WEIGHT <= t.progress[i].percent)
      && (t.result.Ok? ==> t.progress != [] && t.progress[|t.progress| - 1].percent == DOWNLOAD_WEIGHT + TRANSFER_WEIGHT)
  {
    var t := SendFirmware(data, n, host, FW_UPDATE_PORT, conn, true);
    var k := |t.progress|;
    assert t.progress == TransferReports(data, n, k, true);
    TransferProgressMonotone(data, n, k, true);
    TransferProgressBounded(data, n, k, true);
    if t.result.Ok? {
      assert k == ChunkCount(n) > 0;
    }
  }

  /** End to end, corrected: a well-formed manifest offering a newer version whose integrity is
      "sha256:" followed by the firmware's digest leads to the whole firmware reaching the device. */
  lemma CorrectedUpdateInstalls(productModel: string, currentVersion: string, top: map<string, Json>,
                                info: map<string, Json>, version: string, head: HeadReply,
                                host: string, chunks: seq<seq<byte>>, sha: seq<byte> -> string, callback: bool)
    requires IsHex(sha(Flatten(chunks)))
    requires Get(top, "product", JNull) == JStr(productModel)
    requires Get(top, "latest_version", JNull) == JObj(info)
    requires Get(info, "version", JNull) == JStr(version) && version != ""
    requires Truthy(Get(info, "url", JNull))
    requires Get(info, "integrity", JStr("")) == JStr(SHA256_PREFIX + sha(Flatten(chunks)))
    requires Less(currentVersion, version)
    ensures var r := ResolveLatestCorrected(productModel, currentVersion, MetadataReply(200, Some(JObj(top))), head);
      r.result.Ok? && r.result.value.Some?
      && var o := DownloadAndTransferCorrected(r.result.value.value, host, DownloadReply(200, None, chunks, Complete),
                                               Opened(None), sha, callback);
         o.result.Ok? && Payload(o.ops) == Flatten(chunks)
  {
    var digest := sha(Flatten(chunks));
    var integrity := SHA256_PREFIX + digest;
    assert Lower(integrity)[..7] == SHA256_PREFIX;
    VersionGate(productModel, currentVersion, top, info, version, integrity, head);
    var r := ResolveLatestCorrected(productModel, currentVersion, MetadataReply(200, Some(JObj(top))), head);
    var m := r.result.value.value;
    assert integrity[|SHA256_PREFIX|..] == digest;
    HexHasNoWhitespace(digest);
    assert m.integrity == digest;
    var dl := DownloadReply(200, None, chunks, Complete);
    assert Download(m.url, dl, m.integrity, sha, callback).result.Ok?;
    CorrectedRunDeliversFirmware(m, host, dl, Opened(None), sha, callback);
  }

  /** Hex digits are not whitespace, so stripping a hex string leaves it alone. */
  lemma HexHasNoWhitespace(s: string)
    requires IsHex(s)
    ensures Strip(s) == s
  {
    if s != [] {
      assert !IsWhitespace(s[0]) by { assert IsHexDigit(s[0]); }
      assert !IsWhitespace(s[|s| - 1]) by { assert IsHexDigit(s[|s| - 1]); }
    }
  }

  /** End to end, as written: the same manifest and download never reach the device. */
  lemma AsWrittenUpdateNeverInstalls(productModel: string, currentVersion: string, top: map<string, Json>,
                                     info: map<string, Json>, version: string, head: HeadReply,
                                     host: string, chunks: seq<seq<byte>>, sha: seq<byte> -> string, callback: bool)
    requires IsHex(sha(Flatten(chunks)))
    requires Get(top, "product", JNull) == JStr(productModel)
    requires Get(top, "latest_version", JNull) == JObj(info)
    requires Get(info, "version", JNull) == JStr(version) && version != ""
    requires Truthy(Get(info, "url", JNull))
    requires Get(info, "integrity", JStr("")) == JStr(SHA256_PREFIX + sha(Flatten(chunks)))
    requires Less(currentVersion, version)
    ensures var r := ResolveLatest(productModel, currentVersion, MetadataReply(200, Some(JObj(top))), head);
      r.result.Ok? && r.result.value.Some?
      && var o := DownloadAndTransfer(r.result.value.value, host, DownloadReply(200, None, chunks, Complete),
                                      Opened(None), sha, callback);
         o.result == Err(IntegrityError) && o.ops == []
  {
    var integrity := SHA256_PREFIX + sha(Flatten(chunks));
    assert Lower(integrity)[..7] == SHA256_PREFIX;
    VersionGate(productModel, currentVersion, top, info, version, integrity, head);
    PrefixedIntegrityNeverMatches(integrity, sha(Flatten(chunks)));
  }
}
