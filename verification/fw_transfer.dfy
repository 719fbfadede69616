/** Pushing the verified firmware to the device over a raw TCP stream: the second half of the progress scale. */
module FwTransfer {
  import opened Wrappers
  import opened Errors
  import opened Bytes
  import opened FwDownload

  const CHUNK_SIZE: nat := 1024

  /** What opening the stream does: refused by the device, failing with another socket error, or opened.
      An opened stream may fail at one `drain`: drain `k` for `k` below the chunk count follows chunk `k`,
      drain number "chunk count" follows the end-of-stream marker; a later index never fires. */
  datatype Connection = Refused | Unreachable | Opened(failAt: Option<nat>)

  /** What the updater does on the socket, in order. */
  datatype SocketOp = Connect(host: string, port: int) | Write(bytes: seq<byte>) | WriteEof | Close

  /** The transfer's outcome, the socket operations issued and the progress reports made. */
  datatype Transfer = Transfer(result: Result<(), Error>, ops: seq<SocketOp>, progress: seq<Report>)

  /** How many times `range(0, total, 1024)` runs. */
  function ChunkCount(total: nat): (n: nat)
    ensures n * CHUNK_SIZE >= total
    ensures n > 0 ==> (n - 1) * CHUNK_SIZE < total
  {
    (total + CHUNK_SIZE - 1) / CHUNK_SIZE
  }

  /** The `k`-th packet: `firmware_data[k*1024 : k*1024 + 1024]`, cut short (or empty) past the end. */
  function ChunkAt(data: seq<byte>, k: nat): seq<byte> {
    Slice(data, k * CHUNK_SIZE, k * CHUNK_SIZE + CHUNK_SIZE)
  }

  /** The writes of the first `k` packets. */
  function WriteOps(data: seq<byte>, k: nat): (ops: seq<SocketOp>)
    ensures |ops| == k && forall i :: 0 <= i < k ==> ops[i] == Write(ChunkAt(data, i))
  {
    seq(k, i requires 0 <= i < k => Write(ChunkAt(data, i)))
  }

  /** `total_sent` after the first `k` packets. */
  function SentAfter(data: seq<byte>, k: nat): nat {
    if k == 0 then 0 else SentAfter(data, k - 1) + |ChunkAt(data, k - 1)|
  }

  /** The whole percentage of the full scale reached once `sent` of `total` bytes went out. */
  function TransferPercent(sent: nat, total: nat): (p: nat)
    requires total > 0
    ensures DOWNLOAD_WEIGHT <= p
    ensures sent <= total ==> p <= DOWNLOAD_WEIGHT + TRANSFER_WEIGHT
    ensures sent == total ==> p == DOWNLOAD_WEIGHT + TRANSFER_WEIGHT
    ensures (p - DOWNLOAD_WEIGHT) * total <= sent * TRANSFER_WEIGHT < (p - DOWNLOAD_WEIGHT + 1) * total
  {
    var q := sent * TRANSFER_WEIGHT / total;
    ScaledQuotient(sent, total, TRANSFER_WEIGHT, q);
    DOWNLOAD_WEIGHT + q
  }

  /** The reports made after the first `k` packets went out, none without a callback. */
  function TransferReports(data: seq<byte>, total: nat, k: nat, callback: bool): (rs: seq<Report>)
    requires k <= ChunkCount(total)
    ensures |rs| == if callback then k else 0
    ensures forall i :: 0 <= i < |rs| ==> rs[i].phase == Transferring && DOWNLOAD_WEIGHT <= rs[i].percent
    ensures forall i :: 0 <= i < |rs| ==> total > 0 && rs[i].percent == TransferPercent(SentAfter(data, i + 1), total)
  {
    if callback then
      seq(k, i requires 0 <= i < k => Report(TransferPercent(SentAfter(data, i + 1), total), Transferring))
    else []
  }

  /** How many packets are drained, and so reported, on an opened stream that may fail at drain `failAt`. */
  function DrainedPackets(total: nat, failAt: Option<nat>): (k: nat)
    ensures k <= ChunkCount(total)
    ensures failAt.Some? && failAt.value < ChunkCount(total) ==> k == failAt.value
    ensures failAt.None? || failAt.value >= ChunkCount(total) ==> k == ChunkCount(total)
  {
    if failAt.Some? && failAt.value < ChunkCount(total) then failAt.value else ChunkCount(total)
  }

  /** `_async_send_firmware_tcp(firmware_data, total_size, callback)` towards `host:port`. Closing the
      stream in the `finally` clause is taken to succeed. */
  function SendFirmware(data: seq<byte>, total: nat, host: string, port: int, conn: Connection, callback: bool): (r: Transfer)
    ensures |r.ops| >= 1 && r.ops[0] == Connect(host, port)
    ensures r.result.Ok? <==>
      conn.Opened? && (conn.failAt.None? || conn.failAt.value > ChunkCount(total))
    ensures r.result.Err? ==>
      r.result.error == TransferError(if conn.Refused? then ConnectionRefused else TransportFault)
    ensures r.ops[|r.ops| - 1] == Close <==> conn.Opened?
    ensures forall i :: 0 < i < |r.ops| - 1 ==> r.ops[i] != Close && !r.ops[i].Connect?
    ensures r.result.Ok? ==>
      |r.ops| == ChunkCount(total) + 3 && r.ops[|r.ops| - 2] == WriteEof
      && r.ops[1..|r.ops| - 2] == WriteOps(data, ChunkCount(total))
    ensures |r.progress| <= ChunkCount(total) && (!callback ==> r.progress == [])
    ensures !conn.Opened? ==> r.progress == []
    ensures conn.Opened? ==>
      r.progress == TransferReports(data, total, DrainedPackets(total, conn.failAt), callback)
  {
    var connect := Connect(host, port);
    match conn
    case Refused => Transfer(Err(TransferError(ConnectionRefused)), [connect], [])
    case Unreachable => Transfer(Err(TransferError(TransportFault)), [connect], [])
    case Opened(failAt) =>
      var n := ChunkCount(total);
      if failAt.Some? && failAt.value < n then
        var k := failAt.value;
        Transfer(Err(TransferError(TransportFault)), [connect] + WriteOps(data, k + 1) + [Close],
                 TransferReports(data, total, k, callback))
      else
        var ops := [connect] + WriteOps(data, n) + [WriteEof, Close];
        assert ops[1..|ops| - 2] == WriteOps(data, n);
        var reports := TransferReports(data, total, n, callback);
        if failAt == Some(n) then Transfer(Err(TransferError(TransportFault)), ops, reports)
        else Transfer(Ok(()), ops, reports)
  }

  /** The bytes handed to the socket, in order. */
  function Payload(ops: seq<SocketOp>): seq<byte> {
    if ops == [] then []
    else (if ops[0].Write? then ops[0].bytes else []) + Payload(ops[1..])
  }

  lemma {:induction false} PayloadAppend(a: seq<SocketOp>, b: seq<SocketOp>)
    ensures Payload(a + b) == Payload(a) + Payload(b)
    decreases |a|
  {
    if a == [] {
      assert a + b == b;
    } else {
      assert (a + b)[1..] == a[1..] + b;
      PayloadAppend(a[1..], b);
    }
  }

  /** The `k`-th packet holds the firmware bytes from `1024*k` up to `1024*(k+1)`, clamped to its end. */
  lemma ChunkIsSegment(data: seq<byte>, k: nat)
    ensures var lo, hi := Min(|data|, k * CHUNK_SIZE), Min(|data|, (k + 1) * CHUNK_SIZE);
      lo <= hi && ChunkAt(data, k) == data[lo..hi]
  {
    var lo, hi := Min(|data|, k * CHUNK_SIZE), Min(|data|, (k + 1) * CHUNK_SIZE);
    var c := ChunkAt(data, k);
    assert k * CHUNK_SIZE + CHUNK_SIZE == (k + 1) * CHUNK_SIZE;
    assert |c| == hi - lo;
    assert forall i :: 0 <= i < |c| ==> c[i] == data[k * CHUNK_SIZE + i];
  }

  /** One more packet appends one more write. */
  lemma WriteOpsStep(data: seq<byte>, k: nat)
    ensures WriteOps(data, k + 1) == WriteOps(data, k) + [Write(ChunkAt(data, k))]
  {
  }

  /** The first `k` packets together carry the first `min(len(data), 1024*k)` bytes of the firmware. */
  lemma {:induction false} WritesCarryPrefix(data: seq<byte>, k: nat)
    ensures Payload(WriteOps(data, k)) == data[..Min(|data|, k * CHUNK_SIZE)]
    decreases k
  {
    if k == 0 {
      assert WriteOps(data, 0) == [];
    } else {
      var j := k - 1;
      var c := ChunkAt(data, j);
      var lo := Min(|data|, j * CHUNK_SIZE);
      var hi := Min(|data|, k * CHUNK_SIZE);
      var before := WriteOps(data, j);
      assert Payload(before) == data[..lo] by {
        WritesCarryPrefix(data, j);
      }
      assert c == data[lo..hi] by {
        ChunkIsSegment(data, j);
      }
      assert Payload(WriteOps(data, k)) == Payload(before) + c by {
        WriteOpsStep(data, j);
        PayloadAppend(before, [Write(c)]);
        assert Payload([Write(c)]) == c + Payload([]);
      }
      PrefixExtend(data, lo, hi);
    }
  }

  lemma PrefixExtend(data: seq<byte>, lo: nat, hi: nat)
    requires lo <= hi <= |data|
    ensures data[..lo] + data[lo..hi] == data[..hi]
  {
  }

  /** `total_sent` after `k` packets is the number of firmware bytes they carry. */
  lemma {:induction false} SentAfterCounts(data: seq<byte>, k: nat)
    ensures SentAfter(data, k) == Min(|data|, k * CHUNK_SIZE)
    decreases k
  {
    if k > 0 {
      SentAfterCounts(data, k - 1);
      ChunkIsSegment(data, k - 1);
    }
  }

  /** `total_sent` never decreases from one packet to the next. */
  lemma SentAfterGrows(data: seq<byte>, k1: nat, k2: nat)
    requires k1 <= k2
    ensures SentAfter(data, k1) <= SentAfter(data, k2)
  {
    SentAfterCounts(data, k1);
    SentAfterCounts(data, k2);
    assert k1 * CHUNK_SIZE <= k2 * CHUNK_SIZE;
  }

  /** A completed transfer delivered the first `min(len(firmware_data), 1024 * n)` bytes of the firmware,
      `n` being the number of packets `range(0, total_size, 1024)` yields (all of the firmware when the
      announced size is its length), then the end-of-stream marker, then closed. */
  lemma TransferDeliversAnnouncedBytes(data: seq<byte>, total: nat, host: string, port: int, conn: Connection, callback: bool)
    requires SendFirmware(data, total, host, port, conn, callback).result.Ok?
    ensures var r := SendFirmware(data, total, host, port, conn, callback);
      Payload(r.ops) == data[..Min(|data|, ChunkCount(total) * CHUNK_SIZE)]
    ensures total == |data| ==> Payload(SendFirmware(data, total, host, port, conn, callback).ops) == data
  {
    var r := SendFirmware(data, total, host, port, conn, callback);
    var n := ChunkCount(total);
    assert r.ops == [Connect(host, port)] + WriteOps(data, n) + [WriteEof, Close];
    PayloadAppend([Connect(host, port)] + WriteOps(data, n), [WriteEof, Close]);
    PayloadAppend([Connect(host, port)], WriteOps(data, n));
    assert Payload([WriteEof, Close]) == [];
    assert Payload([Connect(host, port)]) == [];
    WritesCarryPrefix(data, n);
  }

  /** A fault at drain `k` leaves the first `k + 1` packets written and the stream closed. */
  lemma FaultClosesAfterPartialWrite(data: seq<byte>, total: nat, host: string, port: int, k: nat, callback: bool)
    requires k < ChunkCount(total)
    ensures var r := SendFirmware(data, total, host, port, Opened(Some(k)), callback);
      r.result == Err(TransferError(TransportFault))
      && r.ops == [Connect(host, port)] + WriteOps(data, k + 1) + [Close]
      && |r.progress| == (if callback then k else 0)
  {
  }

  /** More bytes sent never means a smaller percentage. */
  lemma TransferPercentMonotone(a: nat, b: nat, total: nat)
    requires total > 0 && a <= b
    ensures TransferPercent(a, total) <= TransferPercent(b, total)
  {
    ScaledQuotientMonotone(a, b, total, TRANSFER_WEIGHT);
  }

  /** Transfer progress never goes backwards. */
  lemma TransferProgressMonotone(data: seq<byte>, total: nat, k: nat, callback: bool)
    requires k <= ChunkCount(total)
    ensures var rs := TransferReports(data, total, k, callback);
      forall i, j :: 0 <= i <= j < |rs| ==> rs[i].percent <= rs[j].percent
  {
    var rs := TransferReports(data, total, k, callback);
    forall i, j | 0 <= i <= j < |rs|
      ensures rs[i].percent <= rs[j].percent
    {
      var a := SentAfter(data, i + 1);
      var b := SentAfter(data, j + 1);
      assert rs[i].percent == TransferPercent(a, total);
      assert rs[j].percent == TransferPercent(b, total);
      SentAfterGrows(data, i + 1, j + 1);
      TransferPercentMonotone(a, b, total);
    }
  }

  /** With an announced size no smaller than the firmware, transfer progress stays within 100%; with the
      announced size equal to the firmware's length the last report says 100%. */
  lemma TransferProgressBounded(data: seq<byte>, total: nat, k: nat, callback: bool)
    requires k <= ChunkCount(total) && |data| <= total
    ensures var rs := TransferReports(data, total, k, callback);
      forall i :: 0 <= i < |rs| ==> rs[i].percent <= DOWNLOAD_WEIGHT + TRANSFER_WEIGHT
    ensures var rs := TransferReports(data, total, k, callback);
      total == |data| && k == ChunkCount(total) && rs != [] ==>
        rs[|rs| - 1].percent == DOWNLOAD_WEIGHT + TRANSFER_WEIGHT
  {
    var rs := TransferReports(data, total, k, callback);
    forall i | 0 <= i < |rs|
      ensures rs[i].percent <= DOWNLOAD_WEIGHT + TRANSFER_WEIGHT
    {
      SentAfterCounts(data, i + 1);
    }
    if total == |data| && k == ChunkCount(total) && rs != [] {
      SentAfterCounts(data, k);
    }
  }

  /** An announced size below the firmware's length takes the transfer past 100%: 2048 bytes sent
      against an announced 1500 report 118%. */
  lemma ShortAnnouncedSizeOvershoots()
    ensures TransferPercent(2048, 1500) == 118 > DOWNLOAD_WEIGHT + TRANSFER_WEIGHT
  {
  }

  /** With an announced size of 0 nothing is written, yet the end-of-stream marker goes out and the
      transfer reports success, whatever the firmware holds. */
  lemma ZeroSizeSendsNothing(data: seq<byte>, host: string, port: int, callback: bool)
    ensures SendFirmware(data, 0, host, port, Opened(None), callback)
            == Transfer(Ok(()), [Connect(host, port), WriteEof, Close], [])
  {
  }
}
