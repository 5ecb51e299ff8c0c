/**
 Streaming a file in byte ranges, against a server that follows RFC 9110: section 14.1.2 (byte
 ranges), section 14.2 (a server may ignore Range), section 15.3.7 (206 with the satisfiable part) and
 section 15.5.17 (416 when the range starts at or past the end).
 */
module FileStream {
  import opened Common

  type Byte = b: int | 0 <= b < 256

  const OK := 200
  const PARTIAL_CONTENT := 206
  const RANGE_NOT_SATISFIABLE := 416

  datatype Response = Response(status: int, contentLength: Option<nat>, body: seq<Byte>)

  /** What is served: the file, the body that a 416 carries, whether ranges are honoured at all, and
      whether answers say their length. */
  datatype Server = Server(file: seq<Byte>, errorBody: seq<Byte>, honoursRanges: bool, sendsLength: bool)

  /** GET with "Range: bytes=first-last". */
  function Answer(s: Server, first: nat, last: nat): Response
    requires first <= last
  {
    if !s.honoursRanges then Respond(s, OK, s.file)
    else if first >= |s.file| then Respond(s, RANGE_NOT_SATISFIABLE, s.errorBody)
    else Respond(s, PARTIAL_CONTENT, s.file[first..Min(last + 1, |s.file|)])
  }

  function Respond(s: Server, status: int, body: seq<Byte>): Response {
    Response(status, if s.sendsLength then Some(|body|) else None, body)
  }

  /** The reading end of the pipe as the uploader sees it. */
  class PipeWriter {
    var written: seq<Byte>
    var closed: bool

    constructor ()
      ensures written == [] && !closed
    {
      written, closed := [], false;
    }

    method Write(bytes: seq<Byte>)
      modifies this
      ensures written == old(written) + bytes && closed == old(closed)
    {
      written := written + bytes;
    }

    method Close()
      modifies this
      ensures written == old(written) && closed
    {
      closed := true;
    }
  }

  /** How many requests a complete download takes. */
  function Requests(s: Server, bufferSize: nat): nat
    requires bufferSize > 0
  {
    if !s.honoursRanges then 1
    else if s.sendsLength then |s.file| / bufferSize + 1
    else (|s.file| + bufferSize - 1) / bufferSize + 1
  }

  /** The download ends with a 416 instead of a short answer. */
  predicate EndsPastTheEnd(s: Server, bufferSize: nat)
    requires bufferSize > 0
  {
    s.honoursRanges && (|s.file| % bufferSize == 0 || !s.sendsLength)
  }

  /** What a complete download delivers. */
  function Delivered(s: Server, bufferSize: nat): seq<Byte>
    requires bufferSize > 0
  {
    if EndsPastTheEnd(s, bufferSize) then s.file + s.errorBody else s.file
  }

  /** The first part of the file. */
  function UpTo(s: Server, end: nat): seq<Byte> {
    s.file[..Min(end, |s.file|)]
  }

  /** What has been written before request number n. */
  function DeliveredBefore(s: Server, bufferSize: nat, n: nat): seq<Byte> {
    UpTo(s, n * bufferSize)
  }

  /** Request number k asks for the k-th range: consecutive, non-overlapping, all of the same length. */
  ghost predicate Consecutive(ranges: seq<(nat, nat)>, bufferSize: nat) {
    forall k :: 0 <= k < |ranges| ==> ranges[k].0 == k * bufferSize && ranges[k].1 == (k + 1) * bufferSize - 1
  }

  lemma Quotient(n: nat, b: nat, k: nat)
    requires b > 0 && k * b <= n < (k + 1) * b
    ensures n / b == k && n % b == n - k * b
  {
    Product(n / b + 1, k, b);
    Product(k + 1, n / b, b);
    assert n == (n / b) * b + n % b;
  }

  lemma Product(a: int, c: int, b: nat)
    ensures a <= c ==> a * b <= c * b
  {
    assert c * b == a * b + (c - a) * b;
  }

  lemma AtMostQuotient(n: nat, b: nat, k: nat)
    requires b > 0 && k * b <= n
    ensures k <= n / b
  {
    Product(n / b + 1, k, b);
    assert n == (n / b) * b + n % b;
  }

  lemma RangeEnds(k: nat, bufferSize: nat)
    ensures (k + 1) * bufferSize == k * bufferSize + bufferSize
  {
  }

  /** k full ranges lie before the last request. */
  ghost predicate Reached(s: Server, bufferSize: nat, k: nat) {
    || k == 0
    || (&& s.honoursRanges
        && if s.sendsLength then k * bufferSize <= |s.file| else (k - 1) * bufferSize < |s.file|)
  }

  /** A range that was reached is one of the requests, and is the last one exactly when the answer to it
      is no full range. */
  lemma LastRequest(s: Server, bufferSize: nat, k: nat)
    requires bufferSize > 0 && Reached(s, bufferSize, k)
    ensures k < Requests(s, bufferSize)
    ensures s.honoursRanges && s.sendsLength && |s.file| < (k + 1) * bufferSize ==>
              k + 1 == Requests(s, bufferSize) && |s.file| % bufferSize == |s.file| - k * bufferSize
    ensures s.honoursRanges && !s.sendsLength && |s.file| <= k * bufferSize ==> k + 1 == Requests(s, bufferSize)
  {
    var n, b := |s.file|, bufferSize;
    if s.honoursRanges {
      if s.sendsLength {
        AtMostQuotient(n, b, k);
        if n < (k + 1) * b { Quotient(n, b, k); }
      } else {
        assert (k - 1) * b == k * b - b;
        AtMostQuotient(n + b - 1, b, k);
        if n <= k * b { Quotient(n + b - 1, b, k); }
      }
    }
  }

  /** The download is the file, and nothing else, exactly when it does not end with a 416 that has a
      body: a file size that is a multiple of the buffer size appends the error message to the file. */
  lemma FaithfulIff(s: Server, bufferSize: nat)
    requires bufferSize > 0
    ensures Delivered(s, bufferSize) == s.file <==> !EndsPastTheEnd(s, bufferSize) || s.errorBody == []
  {
    if EndsPastTheEnd(s, bufferSize) && s.errorBody != [] {
      assert |s.file + s.errorBody| > |s.file|;
    }
  }

  /** A request that fails: before there is an answer, or while its body is copied, after so many bytes,
      because the connection breaks or the reader has closed its end of the pipe. */
  datatype Failure = Failure(request: nat, copied: Option<nat>)

  /** What of the body of a failing request is written. */
  function Copied(s: Server, bufferSize: nat, f: Failure): seq<Byte>
    requires bufferSize > 0
  {
    if f.copied.None? then []
    else
      var body := RangeAnswer(s, bufferSize, f.request).body;
      body[..Min(f.copied.value, |body|)]
  }

  function RangeAnswer(s: Server, bufferSize: nat, k: nat): Response
    requires bufferSize > 0
  {
    Answer(s, k * bufferSize, k * bufferSize + bufferSize - 1)
  }

  /** The test that ends the loop. */
  predicate IsLast(response: Response, bufferSize: nat) {
    || (response.contentLength.Some? && response.contentLength.value < bufferSize)
    || response.status != PARTIAL_CONTENT
  }

  /** An honoured range extends what is delivered by its part of the file, or by the body of a 416. */
  lemma RangeDelivers(s: Server, first: nat, size: nat)
    requires size > 0 && s.honoursRanges
    ensures var r := Answer(s, first, first + size - 1);
            && (IsLast(r, size) <==> first >= |s.file| || (s.sendsLength && |s.file| < first + size))
            && UpTo(s, first) + r.body == if first < |s.file| then UpTo(s, first + size) else s.file + s.errorBody
  {
    var n := |s.file|;
    if first < n {
      var end := Min(first + size, n);
      assert s.file[..first] + s.file[first..end] == s.file[..end];
    } else {
      assert s.file[..n] == s.file;
    }
  }

  lemma UpToEnd(s: Server, end: nat)
    requires end >= |s.file|
    ensures UpTo(s, end) == s.file
  {
  }

  /** Request number k extends what is delivered by its range, or completes it. */
  lemma RequestDelivers(s: Server, bufferSize: nat, k: nat)
    requires bufferSize > 0 && Reached(s, bufferSize, k)
    ensures k < Requests(s, bufferSize)
    ensures var r := RangeAnswer(s, bufferSize, k);
            if IsLast(r, bufferSize)
            then k + 1 == Requests(s, bufferSize)
                 && DeliveredBefore(s, bufferSize, k) + r.body == Delivered(s, bufferSize)
            else Reached(s, bufferSize, k + 1)
                 && DeliveredBefore(s, bufferSize, k) + r.body == DeliveredBefore(s, bufferSize, k + 1)
  {
    LastRequest(s, bufferSize, k);
    if s.honoursRanges {
      RangeEnds(k, bufferSize);
      RangeDelivers(s, k * bufferSize, bufferSize);
      hide Answer, UpTo, IsLast;
      if |s.file| <= k * bufferSize + bufferSize { UpToEnd(s, k * bufferSize + bufferSize); }
      LastRange(s, bufferSize, k);
    }
  }

  /** The last range ends the file short of its own end, or starts where the file ends. */
  lemma LastRange(s: Server, bufferSize: nat, k: nat)
    requires bufferSize > 0 && Reached(s, bufferSize, k) && s.honoursRanges
    ensures |s.file| <= k * bufferSize ==> EndsPastTheEnd(s, bufferSize) && k + 1 == Requests(s, bufferSize)
    ensures s.sendsLength && k * bufferSize < |s.file| < k * bufferSize + bufferSize ==>
              !EndsPastTheEnd(s, bufferSize) && k + 1 == Requests(s, bufferSize)
    ensures k * bufferSize < |s.file| && !(s.sendsLength && |s.file| < k * bufferSize + bufferSize) ==>
              Reached(s, bufferSize, k + 1)
  {
    RangeEnds(k, bufferSize);
    LastRequest(s, bufferSize, k);
    hide Requests;
  }

  /** GetFileContentStream. The writer is left open exactly when a request fails that is made at all. */
  method GetFileContentStream(s: Server, writer: PipeWriter, bufferSize: nat, failure: Option<Failure>)
    returns (ranges: seq<(nat, nat)>)
    requires bufferSize > 0
    requires writer.written == [] && !writer.closed
    modifies writer
    ensures Consecutive(ranges, bufferSize)
    ensures writer.closed <==> failure.None? || failure.value.request >= Requests(s, bufferSize)
    ensures writer.closed ==>
              |ranges| == Requests(s, bufferSize) && writer.written == Delivered(s, bufferSize)
    ensures writer.closed ==>
              (writer.written == s.file <==> !EndsPastTheEnd(s, bufferSize) || s.errorBody == [])
    ensures !writer.closed ==>
              && |ranges| == failure.value.request + 1
              && writer.written
                 == DeliveredBefore(s, bufferSize, failure.value.request) + Copied(s, bufferSize, failure.value)
  {
    FaithfulIff(s, bufferSize);
    var rangeStart := 0;
    ranges := [];
    assert Reached(s, bufferSize, 0) && DeliveredBefore(s, bufferSize, 0) == [];
    hide Requests, Delivered, DeliveredBefore, EndsPastTheEnd, Reached, Answer;
    while true
      invariant rangeStart == |ranges| * bufferSize
      invariant Consecutive(ranges, bufferSize)
      invariant Reached(s, bufferSize, |ranges|)
      invariant writer.written == DeliveredBefore(s, bufferSize, |ranges|) && !writer.closed
      invariant failure.Some? ==> |ranges| <= failure.value.request
      decreases Requests(s, bufferSize) - |ranges|
    {
      ghost var k := |ranges|;
      RequestDelivers(s, bufferSize, k);
      RangeEnds(k, bufferSize);
      ranges := ranges + [(rangeStart, rangeStart + bufferSize - 1)];
      var response := Answer(s, rangeStart, rangeStart + bufferSize - 1);
      if failure.Some? && failure.value.request == |ranges| - 1 {
        var copied := failure.value.copied;
        if copied.Some? { writer.Write(response.body[..Min(copied.value, |response.body|)]); }
        return;
      }
      writer.Write(response.body);
      if (response.contentLength.Some? && response.contentLength.value < bufferSize)
         || response.status != PARTIAL_CONTENT
      {
        writer.Close();
        return;
      }
      rangeStart := rangeStart + bufferSize;
    }
  }
}
