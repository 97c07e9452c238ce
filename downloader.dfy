/**
 * The byte-transfer loop (`Downloader.download`) and the resumable HTTP
 * download around it (`okHttpDownload`). The stream is given as the chunks
 * successive reads return and the clock as its successive readings; the
 * file and the received-bytes flow are objects the transfer updates in place.
 */
module Downloader {
  import opened Wrappers
  import opened Text
  import opened Models

  /** `BUFFER_SIZE`: 512 KiB, the read buffer and the most one read returns. */
  const BUFFER_SIZE := 512 * 1024

  /** A file's bytes, written through a `FileOutputStream`. */
  class OutputFile {
    var content: seq<byte>

    constructor (content: seq<byte>)
      ensures this.content == content
    {
      this.content := content;
    }

    /** `FileOutputStream(file, append)`: opening without append truncates the file. */
    method Open(append: bool)
      modifies this
      ensures content == if append then old(content) else []
    {
      if !append {
        content := [];
      }
    }

    /** `write(buffer, 0, n)` */
    method Write(buffer: array<byte>, n: nat)
      requires n <= buffer.Length
      modifies this
      ensures content == old(content) + buffer[..n]
    {
      content := content + buffer[..n];
    }
  }

  /** `MutableStateFlow<Long>`: the latest byte count. */
  class ReceiveFlow {
    var value: int

    constructor (value: int)
      ensures this.value == value
    {
      this.value := value;
    }
  }

  // --------------------------------------------------------- specification

  /** The loop's variables and what it has emitted so far. */
  datatype Sampler = Sampler(received: int, lastTime: int, lastBytes: int, events: seq<Progress>)

  /** Before the first read: the total alone has been emitted. */
  function Start(totalBytes: int, now: int): Sampler {
    Sampler(0, now, 0, [Progress(totalBytes, None, None)])
  }

  /** One read of `n` bytes at clock reading `now`: a sample when a second has passed since the last one. */
  function Step(s: Sampler, totalBytes: int, n: nat, now: int): Sampler {
    var received := s.received + n;
    if now - s.lastTime >= 1000
    then Sampler(received, now, received, s.events + [Progress(totalBytes, Some(received), Some(received - s.lastBytes))])
    else Sampler(received, s.lastTime, s.lastBytes, s.events)
  }

  /** The state after the first `k` reads; `clock[0]` is read before the loop, `clock[i + 1]` after read `i`. */
  function Run(totalBytes: int, sizes: seq<nat>, clock: seq<int>, k: nat): Sampler
    requires |clock| == |sizes| + 1 && k <= |sizes|
    decreases k
  {
    if k == 0 then Start(totalBytes, clock[0])
    else Step(Run(totalBytes, sizes, clock, k - 1), totalBytes, sizes[k - 1], clock[k])
  }

  function Sizes(chunks: seq<seq<byte>>): (r: seq<nat>)
    ensures |r| == |chunks| && forall i :: 0 <= i < |chunks| ==> r[i] == |chunks[i]|
  {
    seq(|chunks|, i requires 0 <= i < |chunks| => |chunks[i]|)
  }

  function Sum(s: seq<nat>): nat
    decreases |s|
  {
    if |s| == 0 then 0 else Sum(s[..|s| - 1]) + s[|s| - 1]
  }

  function Flatten(chunks: seq<seq<byte>>): seq<byte>
    decreases |chunks|
  {
    if |chunks| == 0 then [] else Flatten(chunks[..|chunks| - 1]) + chunks[|chunks| - 1]
  }

  lemma {:induction false} FlattenLength(chunks: seq<seq<byte>>)
    ensures |Flatten(chunks)| == Sum(Sizes(chunks))
    decreases |chunks|
  {
    if |chunks| > 0 {
      var init := chunks[..|chunks| - 1];
      assert Sizes(chunks)[..|chunks| - 1] == Sizes(init);
      FlattenLength(init);
    }
  }

  /** The speeds of the samples, summed. */
  function SpeedSum(events: seq<Progress>): int
    decreases |events|
  {
    if |events| == 0 then 0
    else SpeedSum(events[..|events| - 1]) + events[|events| - 1].speed.GetOr(0)
  }

  /** Every value after the first is a sample of `totalBytes` with a count and a speed. */
  predicate Samples(totalBytes: int, events: seq<Progress>) {
    forall i :: 1 <= i < |events| ==>
      events[i].size == totalBytes && events[i].progress.Some? && events[i].speed.Some?
  }

  /** The sampled counts never decrease. */
  predicate Increasing(events: seq<Progress>) {
    forall i, j :: 1 <= i < j < |events| ==>
      events[i].progress.Some? && events[j].progress.Some? && events[i].progress.value <= events[j].progress.value
  }

  /**
   * What the loop keeps true: the first value carries only the total; every
   * later one is a sample of the total, a byte count and a speed; the counts
   * never decrease; the speeds add up to the last sample's count; and the
   * count received is the sum of the reads so far.
   */
  predicate WellSampled(totalBytes: int, s: Sampler, sizes: seq<nat>) {
    && |s.events| >= 1
    && s.events[0] == Progress(totalBytes, None, None)
    && Samples(totalBytes, s.events)
    && Increasing(s.events)
    && SpeedSum(s.events) == s.lastBytes
    && (|s.events| > 1 ==> s.events[|s.events| - 1].progress == Some(s.lastBytes))
    && (|s.events| == 1 ==> s.lastBytes == 0)
    && 0 <= s.lastBytes <= s.received == Sum(sizes)
  }

  /** A sample whose count is at least the last one keeps the counts increasing. */
  lemma AppendIncreasing(events: seq<Progress>, last: int, p: Progress)
    requires |events| >= 1 && Increasing(events)
    requires |events| > 1 ==> events[|events| - 1].progress == Some(last)
    requires p.progress.Some? && last <= p.progress.value
    ensures Increasing(events + [p])
  {
    var u := events + [p];
    forall i, j | 1 <= i < j < |u|
      ensures u[i].progress.Some? && u[j].progress.Some? && u[i].progress.value <= u[j].progress.value
    {
      assert u[i] == events[i];
      if j < |events| {
        assert u[j] == events[j];
      } else if i < |events| - 1 {
        assert events[i].progress.value <= events[|events| - 1].progress.value;
      }
    }
  }

  /** One read keeps the loop's invariant, with its size added to the reads so far. */
  lemma StepPreserves(totalBytes: int, s: Sampler, sizes: seq<nat>, n: nat, now: int)
    requires WellSampled(totalBytes, s, sizes)
    ensures WellSampled(totalBytes, Step(s, totalBytes, n, now), sizes + [n])
  {
    assert (sizes + [n])[..|sizes|] == sizes;
    if now - s.lastTime >= 1000 {
      var t := Step(s, totalBytes, n, now);
      var p := t.events[|t.events| - 1];
      assert t.events == s.events + [p];
      assert t.events[..|t.events| - 1] == s.events;
      AppendIncreasing(s.events, s.lastBytes, p);
      assert Samples(totalBytes, t.events) by {
        forall i | 1 <= i < |t.events| ensures t.events[i].size == totalBytes && t.events[i].progress.Some? && t.events[i].speed.Some? {
          if i < |s.events| {
            assert t.events[i] == s.events[i];
          }
        }
      }
    }
  }

  lemma {:induction false} RunWellSampled(totalBytes: int, sizes: seq<nat>, clock: seq<int>, k: nat)
    requires |clock| == |sizes| + 1 && k <= |sizes|
    ensures WellSampled(totalBytes, Run(totalBytes, sizes, clock, k), sizes[..k])
    decreases k
  {
    if k > 0 {
      var s := Run(totalBytes, sizes, clock, k - 1);
      assert Run(totalBytes, sizes, clock, k) == Step(s, totalBytes, sizes[k - 1], clock[k]);
      assert sizes[..k - 1] + [sizes[k - 1]] == sizes[..k];
      RunWellSampled(totalBytes, sizes, clock, k - 1);
      StepPreserves(totalBytes, s, sizes[..k - 1], sizes[k - 1], clock[k]);
    }
  }

  /**
   * Read `k` adds a sample exactly when at least a second has passed since the
   * last sample (or since the loop started), and adds at most one.
   */
  lemma SampleAfterASecond(totalBytes: int, sizes: seq<nat>, clock: seq<int>, k: nat)
    requires |clock| == |sizes| + 1 && k < |sizes|
    ensures var before := Run(totalBytes, sizes, clock, k);
            var after := Run(totalBytes, sizes, clock, k + 1);
            && (clock[k + 1] - before.lastTime >= 1000 ==>
                  after.events == before.events + [Progress(totalBytes, Some(after.received), Some(after.received - before.lastBytes))]
                  && after.lastTime == clock[k + 1])
            && (clock[k + 1] - before.lastTime < 1000 ==> after.events == before.events && after.lastTime == before.lastTime)
  {
  }

  /** The bytes of the reads after the last sample are never reported: one quick read leaves only the opening value. */
  lemma LastBytesUnreported()
    ensures var s := Run(100, [1], [0, 5], 1);
            s.events == [Progress(100, None, None)] && s.received == 1
  {
  }

  // ----------------------------------------------------------------- loop

  /** `bis.read(buffer)` returning `chunk`: the chunk lands at the front of the buffer. */
  method ReadInto(buffer: array<byte>, chunk: seq<byte>) returns (n: nat)
    requires |chunk| <= buffer.Length
    modifies buffer
    ensures n == |chunk| && buffer[..n] == chunk
  {
    forall j | 0 <= j < |chunk| {
      buffer[j] := chunk[j];
    }
    n := |chunk|;
  }

  /**
   * `download(file, stream, totalBytes, progressFlow, receiveFlow)`. The values
   * emitted are returned; `chunks` are the reads that return data and `clock`
   * the clock readings, the first before the loop. The read after the last
   * chunk reports the end of the stream, or throws `fault`: then the exception
   * escapes, and the file, the received-bytes flow and the values emitted are
   * left as the chunks before it made them.
   */
  method Download(file: OutputFile, chunks: seq<seq<byte>>, fault: Option<Error>, clock: seq<int>, totalBytes: int,
                  receive: ReceiveFlow)
    returns (events: seq<Progress>, raised: Option<Error>)
    requires |clock| == |chunks| + 1
    requires forall i :: 0 <= i < |chunks| ==> 1 <= |chunks[i]| <= BUFFER_SIZE
    modifies file, receive
    ensures file.content == Flatten(chunks)
    ensures events == Run(totalBytes, Sizes(chunks), clock, |chunks|).events
    ensures receive.value == if |chunks| == 0 then old(receive.value) else Sum(Sizes(chunks))
    ensures raised == fault
  {
    events := [Progress(totalBytes, None, None)];
    file.Open(false);
    var buffer := new byte[BUFFER_SIZE];
    var received: int := 0;
    var lastTime := clock[0];
    var lastBytes: int := 0;
    var i := 0;
    ghost var sizes := Sizes(chunks);
    while i < |chunks|
      invariant 0 <= i <= |chunks|
      invariant Sampler(received, lastTime, lastBytes, events) == Run(totalBytes, sizes, clock, i)
      invariant received == Sum(sizes[..i])
      invariant file.content == Flatten(chunks[..i])
      invariant receive.value == if i == 0 then old(receive.value) else received
    {
      var bytesRead := ReadInto(buffer, chunks[i]);
      file.Write(buffer, bytesRead);
      assert chunks[..i + 1][..i] == chunks[..i];
      assert sizes[..i + 1][..i] == sizes[..i];
      received := received + bytesRead;
      receive.value := received;
      var now := clock[i + 1];
      if now - lastTime >= 1000 {
        var speed := received - lastBytes;
        lastBytes := received;
        lastTime := now;
        events := events + [Progress(totalBytes, Some(received), Some(speed))];
      }
      i := i + 1;
    }
    assert chunks[..i] == chunks;
    assert sizes[..i] == sizes;
    raised := fault;
  }

  // ----------------------------------------------------------- resuming

  /**
   * The request headers: with `fileLength` bytes already on disk, the open
   * range `bytes=<fileLength>-` (section 14.2 of RFC 9110) replaces any
   * "Range" entry; with none, the headers are sent as given.
   */
  function ResumeHeaders(headers: map<string, string>, fileLength: int): (r: map<string, string>)
    ensures fileLength > 0 ==> r.Keys == headers.Keys + {"Range"} && r["Range"] == "bytes=" + IntToString(fileLength) + "-"
    ensures fileLength > 0 ==> forall k :: k in headers && k != "Range" ==> r[k] == headers[k]
    ensures fileLength <= 0 ==> r == headers
  {
    if fileLength > 0 then headers["Range" := "bytes=" + IntToString(fileLength) + "-"] else headers
  }

  /** Reads a `bytes=<first>-` range: from the first byte to the end. */
  function ParseOpenRange(s: string): Option<nat> {
    if |s| >= 8 && s[..6] == "bytes=" && s[|s| - 1] == '-' && AllDigits(s[6..|s| - 1])
    then Some(ParseNat(s[6..|s| - 1]))
    else None
  }

  /** The Range value sent reads back as a range starting at the bytes already on disk. */
  lemma RangeReadsBack(fileLength: int)
    requires fileLength > 0
    ensures ParseOpenRange(ResumeHeaders(map[], fileLength)["Range"]) == Some(fileLength)
  {
    var digits := NatToString(fileLength);
    var s := "bytes=" + digits + "-";
    assert s[6..|s| - 1] == digits;
    assert s[..6] == "bytes=";
    ParseNatToString(fileLength);
  }

  /**
   * What the HTTP response provides: its declared length (-1 when unknown),
   * the reads of its body, and the exception the read after them throws
   * instead of reporting the end of the body, if it does.
   */
  datatype Response = Response(contentLength: int, chunks: seq<seq<byte>>, fault: Option<Error>)

  /**
   * `okHttpDownload(file, req, progressFlow, receiveFlow)`: returns the headers
   * sent, the values emitted and the exception that escapes, if any. `call` is
   * the outcome of awaiting the call. The received-bytes flow is set to the
   * bytes on disk before the call; when the call fails, nothing else happens.
   * Otherwise the total reported is the bytes on disk plus the response's
   * declared length, and the file is opened without append, so it ends up
   * holding the response body alone.
   */
  method OkHttpDownload(file: OutputFile, req: NetworkRequest, call: Result<Response, Error>, clock: seq<int>,
                        receive: ReceiveFlow)
    returns (sent: map<string, string>, events: seq<Progress>, raised: Option<Error>)
    requires call.Success? ==> |clock| == |call.value.chunks| + 1
    requires call.Success? ==> forall i :: 0 <= i < |call.value.chunks| ==> 1 <= |call.value.chunks[i]| <= BUFFER_SIZE
    modifies file, receive
    ensures sent == ResumeHeaders(req.headers, |old(file.content)|)
    ensures call.Failure? ==>
              && raised == Some(call.error) && events == []
              && file.content == old(file.content) && receive.value == |old(file.content)|
    ensures call.Success? ==>
              var response := call.value;
              && raised == response.fault
              && file.content == Flatten(response.chunks)
              && events == Run(|old(file.content)| + response.contentLength, Sizes(response.chunks), clock, |response.chunks|).events
              && receive.value == if |response.chunks| == 0 then |old(file.content)| else Sum(Sizes(response.chunks))
  {
    var fileLength := |file.content|;
    receive.value := fileLength;
    sent := req.headers;
    if fileLength > 0 {
      sent := sent["Range" := "bytes=" + IntToString(fileLength) + "-"];
    }
    if call.Failure? {
      return sent, [], Some(call.error);
    }
    var response := call.value;
    var totalBytes := fileLength + response.contentLength;
    events, raised := Download(file, response.chunks, response.fault, clock, totalBytes, receive);
  }

  /**
   * A resumed download keeps none of the bytes already on disk, although the
   * total counts them: the file holds what was received, and when the body is
   * as long as declared, the total opening the values emitted exceeds the
   * file's final length by exactly the bytes that were on disk.
   */
  lemma ResumeTruncates(existing: seq<byte>, response: Response, clock: seq<int>)
    requires |existing| > 0 && |clock| == |response.chunks| + 1
    ensures var s := Run(|existing| + response.contentLength, Sizes(response.chunks), clock, |response.chunks|);
            && |s.events| >= 1
            && s.events[0] == Progress(|existing| + response.contentLength, None, None)
            && |Flatten(response.chunks)| == s.received
            && (response.contentLength == |Flatten(response.chunks)| ==>
                  s.events[0].size - |Flatten(response.chunks)| == |existing|)
  {
    RunWellSampled(|existing| + response.contentLength, Sizes(response.chunks), clock, |response.chunks|);
    FlattenLength(response.chunks);
    assert Sizes(response.chunks)[..|response.chunks|] == Sizes(response.chunks);
  }
}
