/** Streaming firmware download with SHA-256 verification and the first half of the progress scale. */
module FwDownload {
  import opened Wrappers
  import opened Errors
  import opened Bytes
  import opened Text
  import opened Json

  /** Share of the progress scale given to each stage. */
  const DOWNLOAD_WEIGHT: nat := 50
  const TRANSFER_WEIGHT: nat := 50

  datatype Phase = Downloading | Transferring

  /** One progress callback: a whole percentage and the stage it belongs to. */
  datatype Report = Report(percent: int, phase: Phase)

  /** How the chunk stream of a 200 answer ended: every chunk arrived, an `aiohttp.ClientError` broke it
      off, or the session's timeout fired (an `asyncio.TimeoutError`). */
  datatype BodyEnd = Complete | Broken | TimedOut

  /** The answer to the firmware GET: a client-side network error, the session's timeout firing before
      any response, or a response with its `Content-Length` header, the 1024-byte chunks the body
      delivered and how the body ended. */
  datatype DownloadReply =
    | DownloadUnreachable
    | DownloadTimedOut
    | DownloadReply(status: int, contentLength: Option<string>, chunks: seq<seq<byte>>, ending: BodyEnd)

  /** The download's outcome: the URL fetched, the firmware and the announced size or an error, and the
      reports made. */
  datatype Downloaded = Downloaded(fetched: Json, result: Result<(seq<byte>, nat), Error>, progress: seq<Report>)

  /** Floor division of a scaled count: the quotient brackets the exact ratio, stays within the weight
      while the count stays within the total, and reaches the weight at the total. */
  lemma ScaledQuotient(count: nat, total: nat, weight: nat, p: int)
    requires total > 0 && p == count * weight / total
    ensures p * total <= count * weight < (p + 1) * total
    ensures count <= total ==> p <= weight
    ensures count == total ==> p == weight
  {
    var x := count * weight;
    assert x == p * total + x % total && 0 <= x % total < total;
    if count <= total {
      assert p * total <= weight * total;
    }
    if count == total {
      assert x == weight * total + 0;
    }
  }

  /** The whole percentage of the download stage reached after `received` of `total` bytes. */
  function DownloadPercent(received: nat, total: nat): (p: nat)
    requires total > 0
    ensures received <= total ==> p <= DOWNLOAD_WEIGHT
    ensures received == total ==> p == DOWNLOAD_WEIGHT
    ensures p * total <= received * DOWNLOAD_WEIGHT < (p + 1) * total
  {
    var x := received * DOWNLOAD_WEIGHT;
    var p := x / total;
    ScaledQuotient(received, total, DOWNLOAD_WEIGHT, p);
    p
  }

  /** The reports made while the chunks arrive: one per chunk, and none without a callback or a known size. */
  function DownloadReports(chunks: seq<seq<byte>>, total: nat, callback: bool): (rs: seq<Report>)
    ensures |rs| == if callback && total != 0 then |chunks| else 0
    ensures forall i :: 0 <= i < |rs| ==>
      rs[i].phase == Downloading && rs[i].percent * total <= |Flatten(chunks[..i + 1])| * DOWNLOAD_WEIGHT
    ensures forall i :: 0 <= i < |rs| ==>
      total > 0 && rs[i].percent == DownloadPercent(|Flatten(chunks[..i + 1])|, total)
  {
    if callback && total != 0 then
      seq(|chunks|, i requires 0 <= i < |chunks| =>
        Report(DownloadPercent(|Flatten(chunks[..i + 1])|, total), Downloading))
    else []
  }

  /** The announced size: an absent header counts as 0, an unparseable one makes `int()` fail. */
  function AnnouncedSize(contentLength: Option<string>): (r: Result<nat, Error>)
    ensures r.Err? <==> contentLength.Some? && ParseInt(contentLength.value).None?
    ensures r.Err? ==> r.error == ValueError
    ensures contentLength.None? ==> r == Ok(0)
    ensures contentLength.Some? && ParseInt(contentLength.value).Some? ==>
      r == Ok(ParseInt(contentLength.value).value)
  {
    if contentLength.None? then Ok(0)
    else match ParseInt(contentLength.value)
      case None => Err(ValueError)
      case Some(n) => Ok(n)
  }

  /** A 200 answer whose `Content-Length` header `int()` accepts: the chunks are read and reported. */
  predicate Served(reply: DownloadReply) {
    reply.DownloadReply? && reply.status == 200 && AnnouncedSize(reply.contentLength).Ok?
  }

  /** `_async_download_firmware(url, expected_sha256, callback)`; `sha` is the SHA-256 hex digest.
      Only `aiohttp.ClientError` becomes a `DownloadError`: a timeout escapes as itself. */
  function Download(url: Json, reply: DownloadReply, expected: string, sha: seq<byte> -> string, callback: bool): (r: Downloaded)
    ensures r.fetched == url
    ensures r.result.Ok? <==>
      Served(reply) && reply.ending == Complete && Upper(sha(Flatten(reply.chunks))) == Upper(expected)
    ensures r.result.Ok? ==>
      r.result.value == (Flatten(reply.chunks), AnnouncedSize(reply.contentLength).value)
    ensures r.result == Err(DownloadError) <==>
      reply.DownloadUnreachable? || (reply.DownloadReply? && reply.status != 200)
      || (Served(reply) && reply.ending == Broken)
    ensures r.result == Err(TimeoutError) <==>
      reply.DownloadTimedOut? || (Served(reply) && reply.ending == TimedOut)
    ensures r.result == Err(ValueError) <==>
      reply.DownloadReply? && reply.status == 200 && AnnouncedSize(reply.contentLength).Err?
    ensures r.result == Err(IntegrityError) <==>
      Served(reply) && reply.ending == Complete && Upper(sha(Flatten(reply.chunks))) != Upper(expected)
    ensures Served(reply) ==>
      r.progress == DownloadReports(reply.chunks, AnnouncedSize(reply.contentLength).value, callback)
    ensures !Served(reply) ==> r.progress == []
  {
    match reply
    case DownloadUnreachable => Downloaded(url, Err(DownloadError), [])
    case DownloadTimedOut => Downloaded(url, Err(TimeoutError), [])
    case DownloadReply(status, contentLength, chunks, ending) =>
      if status != 200 then Downloaded(url, Err(DownloadError), [])
      else match AnnouncedSize(contentLength)
        case Err(e) => Downloaded(url, Err(e), [])
        case Ok(total) =>
          var progress := DownloadReports(chunks, total, callback);
          var data := Flatten(chunks);
          match ending
          case Broken => Downloaded(url, Err(DownloadError), progress)
          case TimedOut => Downloaded(url, Err(TimeoutError), progress)
          case Complete =>
            if Upper(sha(data)) != Upper(expected) then Downloaded(url, Err(IntegrityError), progress)
            else Downloaded(url, Ok((data, total)), progress)
  }

  /** A larger count never gives a smaller scaled quotient. */
  lemma ScaledQuotientMonotone(a: nat, b: nat, total: nat, weight: nat)
    requires total > 0 && a <= b
    ensures a * weight / total <= b * weight / total
  {
    var p := a * weight / total;
    var q := b * weight / total;
    ScaledQuotient(a, total, weight, p);
    ScaledQuotient(b, total, weight, q);
    MultiplyMonotone(a, b, weight);
    assert p * total < (q + 1) * total;
    MultiplyMonotone(q + 1, p, total);
  }

  lemma MultiplyMonotone(a: int, b: int, t: nat)
    ensures a <= b ==> a * t <= b * t
  {
  }

  /** Download progress never goes backwards. */
  lemma DownloadProgressMonotone(chunks: seq<seq<byte>>, total: nat, callback: bool)
    ensures var rs := DownloadReports(chunks, total, callback);
      forall i, j :: 0 <= i <= j < |rs| ==> rs[i].percent <= rs[j].percent
  {
    var rs := DownloadReports(chunks, total, callback);
    forall i, j | 0 <= i <= j < |rs|
      ensures rs[i].percent <= rs[j].percent
    {
      FlattenPrefixGrows(chunks, i + 1, j + 1);
      var a := |Flatten(chunks[..i + 1])|;
      var b := |Flatten(chunks[..j + 1])|;
      assert rs[i].percent == DownloadPercent(a, total) == a * DOWNLOAD_WEIGHT / total;
      assert rs[j].percent == DownloadPercent(b, total) == b * DOWNLOAD_WEIGHT / total;
      ScaledQuotientMonotone(a, b, total, DOWNLOAD_WEIGHT);
    }
  }

  /** When the body is no longer than announced the download stage stays within its half of the scale,
      and a body of exactly the announced size ends the stage at 50%. */
  lemma DownloadProgressBounded(chunks: seq<seq<byte>>, total: nat, callback: bool)
    requires |Flatten(chunks)| <= total
    ensures var rs := DownloadReports(chunks, total, callback);
      forall i :: 0 <= i < |rs| ==> 0 <= rs[i].percent <= DOWNLOAD_WEIGHT
    ensures var rs := DownloadReports(chunks, total, callback);
      rs != [] && |Flatten(chunks)| == total ==> rs[|rs| - 1].percent == DOWNLOAD_WEIGHT
  {
    var rs := DownloadReports(chunks, total, callback);
    forall i | 0 <= i < |rs|
      ensures 0 <= rs[i].percent <= DOWNLOAD_WEIGHT
    {
      FlattenPrefixGrows(chunks, i + 1, |chunks|);
      assert chunks[..|chunks|] == chunks;
    }
    if rs != [] {
      assert chunks[..|rs|] == chunks;
    }
  }

  /** The digest comparison ignores letter case on both sides. */
  lemma DigestIgnoresCase(url: Json, reply: DownloadReply, expected: string, sha: seq<byte> -> string, callback: bool)
    ensures Download(url, reply, Lower(expected), sha, callback) == Download(url, reply, expected, sha, callback)
  {
    assert Upper(Lower(expected)) == Upper(expected);
  }
}
