/** Ranged fetches from the core, and the lookahead that runs one of them in
    the background (src/agent/range_fetch.rs). */
module RangeFetch {
  import opened MachineWords
  import opened Numbers
  import opened Wrappers

  function SaturatingAdd(a: u64, b: nat): u64 {
    if a + b <= U64_MAX then a + b else U64_MAX
  }

  // ----- The server, as far as the agent sees it -----

  datatype Status = Full | Partial | Refused

  /** A response: its status, the two length headers, and the body unless reading it fails. */
  datatype Response =
    | Unreachable
    | Response(status: Status, contentLength: Option<u64>, rangeTotal: Option<u64>, body: Option<seq<byte>>)

  /** An honest answer to the range first..last of file (sections 14.1.2, 14.4 and 15.3.7 of RFC 9110):
      a partial response carries at least one byte, never more than asked, from exactly the
      requested start; a full response carries the whole file; lengths are never wrong. */
  ghost predicate Honest(file: seq<byte>, first: nat, last: nat, response: Response) {
    match response
    case Unreachable => true
    case Response(status, contentLength, rangeTotal, body) =>
      status.Refused? ||
      (&& (rangeTotal.Some? ==> rangeTotal.value == |file|)
       && (status.Full? && contentLength.Some? ==> contentLength.value == |file|)
       && (body.Some? ==>
            if status.Full? then body.value == file
            else
              && 0 < |body.value| <= last - first + 1
              && first + |body.value| <= |file|
              && body.value == file[first..first + |body.value|]))
  }

  class Server {
    const file: seq<byte>

    constructor (file: seq<byte>)
      ensures this.file == file
    {
      this.file := file;
    }

    /** Any honest response: refusals, dropped connections, short bodies and missing lengths included. */
    method Respond(first: u64, last: u64) returns (response: Response)
      requires |file| <= U64_MAX
      ensures Honest(file, first, last, response)
    {
      var tellsTotal: bool, tellsLength: bool, bodyArrives: bool := *, *, *;
      var total := if tellsTotal then Some(|file|) else None;
      if * {
        response := Unreachable;
      } else if * {
        response := Response(Refused, None, None, None);
      } else if * {
        var length := if tellsLength then Some(|file|) else None;
        response := Response(Full, length, total, if bodyArrives then Some(file) else None);
      } else if first < |file| && first <= last {
        var most := Lesser(last - first + 1, |file| - first);
        assert 0 < most <= |file| - first;
        var n: u64 :| 0 < n <= most;
        assert first + n <= |file|;
        response := Response(Partial, Some(n), total, if bodyArrives then Some(file[first..first + n]) else None);
      } else {
        response := Response(Refused, None, None, None);
      }
    }
  }

  // ----- One fetch -----

  datatype FetchError = RequestFailed | HttpStatus | RangeIgnored | BodyUnreadable

  datatype RangeBlock = RangeBlock(start: u64, bytes: seq<byte>, byteLen: Option<u64>) {
    predicate Contains(position: u64) {
      start <= position < SaturatingAdd(start, |bytes|)
    }

    predicate IsEmptyAt(position: u64, knownLen: Option<u64>) {
      var len := knownLen.Or(byteLen);
      bytes == [] && position == start && len.Some? && position >= len.value
    }
  }

  function CappedRangeEnd(start: u64, requestedEnd: Option<u64>, rangeBytes: u64): u64 {
    var maxEnd := SaturatingAdd(start, if rangeBytes == 0 then 0 else rangeBytes - 1);
    match requestedEnd
    case None => maxEnd
    case Some(end) => Lesser(end, maxEnd)
  }

  /** A length the agent believes is the file's length. */
  ghost predicate RightLength(file: seq<byte>, byteLen: Option<u64>) {
    byteLen.Some? ==> byteLen.value == |file|
  }

  /** A block holds the file's bytes from its start, and is empty only at or past the end. */
  ghost predicate BlockOf(file: seq<byte>, block: RangeBlock) {
    && RightLength(file, block.byteLen)
    && (if block.bytes == [] then block.start >= |file|
        else
          && block.start + |block.bytes| <= |file|
          && block.bytes == file[block.start..block.start + |block.bytes|])
  }

  ghost predicate FetchOf(file: seq<byte>, start: u64, r: Result<RangeBlock, FetchError>) {
    r.Ok? ==> r.value.start == start && BlockOf(file, r.value)
  }

  /** One request for a range and what came back. */
  datatype Exchange = Exchange(first: u64, last: u64, response: Response)

  /** What is asked for: from start on, rangeBytes positions but at least one, within 64 bits and the known length. */
  ghost predicate AsksFor(e: Exchange, start: u64, rangeBytes: u64, knownLen: Option<u64>) {
    && e.first == start
    && e.last + 1 == Lesser(Lesser(start + (if rangeBytes == 0 then 1 else rangeBytes), TWO_TO_64),
                            if knownLen.Some? then knownLen.value else TWO_TO_64)
  }

  /** The whole file instead of the range: harmless at its start if it is not known to be longer than the range. */
  ghost predicate IgnoresRange(e: Exchange, rangeBytes: u64) {
    && e.response.Response? && e.response.status.Full?
    && (e.first != 0 || (e.response.contentLength.Some? && e.response.contentLength.value > rangeBytes))
  }

  /** A response a fetch can use. */
  ghost predicate Usable(e: Exchange, rangeBytes: u64) {
    && e.response.Response? && !e.response.status.Refused? && !IgnoresRange(e, rangeBytes)
    && e.response.body.Some?
  }

  /** How a fetch answers: without asking past a known end, otherwise as the response to the range allows. */
  ghost predicate Fetched(file: seq<byte>, start: u64, rangeBytes: u64, knownLen: Option<u64>,
                          exchange: Option<Exchange>, r: Result<RangeBlock, FetchError>) {
    && (exchange.None? <==> knownLen.Some? && start >= knownLen.value)
    && match exchange
       case None => r == Ok(RangeBlock(start, [], knownLen))
       case Some(e) =>
         && AsksFor(e, start, rangeBytes, knownLen) && Honest(file, e.first, e.last, e.response)
         && (r.Ok? <==> Usable(e, rangeBytes))
         && (r.Ok? ==> r.value.start == start && r.value.bytes == e.response.body.value)
         && (r.Ok? ==> r.value.byteLen == if e.response.rangeTotal.Some? then e.response.rangeTotal
                                          else if e.response.status.Full? && e.response.contentLength.Some?
                                          then e.response.contentLength else knownLen)
         && (r == Err(RequestFailed) <==> e.response.Unreachable?)
         && (r == Err(HttpStatus) <==> e.response.Response? && e.response.status.Refused?)
         && (r == Err(RangeIgnored) <==> IgnoresRange(e, rangeBytes))
  }

  method FetchAgentRange(server: Server, start: u64, rangeBytes: u64, knownLen: Option<u64>)
    returns (r: Result<RangeBlock, FetchError>, ghost exchange: Option<Exchange>)
    requires |server.file| <= U64_MAX && RightLength(server.file, knownLen)
    ensures FetchOf(server.file, start, r)
    ensures Fetched(server.file, start, rangeBytes, knownLen, exchange, r)
    ensures r.Ok? && knownLen.Some? ==> r.value.byteLen == knownLen
  {
    exchange := None;
    if knownLen.Some? && start >= knownLen.value {
      return Ok(RangeBlock(start, [], knownLen)), exchange;
    }
    var end := CappedRangeEnd(start, None, rangeBytes);
    if knownLen.Some? && knownLen.value > 0 {
      end := Lesser(end, knownLen.value - 1);
    }
    var response := server.Respond(start, end);
    exchange := Some(Exchange(start, end, response));
    if response.Unreachable? {
      return Err(RequestFailed), exchange;
    }
    if response.status.Refused? {
      return Err(HttpStatus), exchange;
    }
    if response.status.Full? &&
       (start != 0 || (response.contentLength.Some? && response.contentLength.value > rangeBytes)) {
      return Err(RangeIgnored), exchange;
    }
    var byteLen := response.rangeTotal.Or(if response.status.Full? then response.contentLength else None);
    if response.body.None? {
      return Err(BodyUnreadable), exchange;
    }
    r := Ok(RangeBlock(start, response.body.value, byteLen.Or(knownLen)));
  }

  /** Whatever else it says, an honest partial response whose body arrives is used. */
  lemma PartialIsServed(file: seq<byte>, start: u64, rangeBytes: u64, knownLen: Option<u64>, e: Exchange,
                        r: Result<RangeBlock, FetchError>)
    requires Fetched(file, start, rangeBytes, knownLen, Some(e), r)
    requires e.response.Response? && e.response.status.Partial? && e.response.body.Some?
    ensures r.Ok? && r.value.bytes != []
    ensures start + |r.value.bytes| <= |file| && r.value.bytes == file[start..start + |r.value.bytes|]
  {
  }

  // ----- The lookahead -----

  /** The shared slot: filled once by the task, emptied once by the reader. */
  datatype Slot = Pending | Filled(result: Result<RangeBlock, FetchError>) | Emptied

  class RangePrefetch {
    const server: Server
    const start: u64
    const rangeBytes: u64
    const knownLen: Option<u64>
    var slot: Slot
    var aborted: bool
    /** The request behind a result. */
    ghost var exchange: Option<Exchange>

    ghost predicate Valid()
      reads this
    {
      && |server.file| <= U64_MAX
      && RightLength(server.file, knownLen)
      && (slot.Filled? ==> Answers(slot.result))
    }

    /** The result is what a fetch of this range answers. */
    ghost predicate Answers(r: Result<RangeBlock, FetchError>)
      reads this
    {
      FetchOf(server.file, start, r) && Fetched(server.file, start, rangeBytes, knownLen, exchange, r)
    }

    /** The result is still to be had: not taken, and the task that produces it not aborted. */
    ghost predicate Live()
      reads this
    {
      Valid() && !slot.Emptied? && !aborted
    }

    constructor (server: Server, start: u64, rangeBytes: u64, knownLen: Option<u64>)
      requires |server.file| <= U64_MAX && RightLength(server.file, knownLen)
      ensures Live() && slot == Pending
      ensures this.server == server && this.start == start && this.rangeBytes == rangeBytes
    {
      this.server := server;
      this.start := start;
      this.rangeBytes := rangeBytes;
      this.knownLen := knownLen;
      slot := Pending;
      aborted := false;
      exchange := None;
    }

    predicate CouldContain(position: u64) {
      start <= position < SaturatingAdd(start, rangeBytes)
    }

    /** The task may or may not have finished by the time the reader looks. */
    method Elapse()
      requires Live()
      modifies this
      ensures Live()
      ensures old(slot).Filled? ==> slot == old(slot)
    {
      if slot.Pending? {
        if * {
          var r, asked := FetchAgentRange(server, start, rangeBytes, knownLen);
          slot, exchange := Filled(r), asked;
        }
      }
    }

    method TryTake() returns (r: Option<Result<RangeBlock, FetchError>>)
      requires Live()
      modifies this
      ensures Valid() && aborted == old(aborted)
      ensures r.None? ==> Live()
      ensures old(slot).Filled? ==> r == Some(old(slot).result)
      ensures r.Some? ==> slot == Emptied && Answers(r.value)
    {
      Elapse();
      match slot
      case Filled(result) =>
        slot := Emptied;
        r := Some(result);
      case _ =>
        r := None;
    }

    /** Blocks until the task finishes.  Only a live lookahead may be waited on: the slot of
        any other is never filled again. */
    method Wait() returns (r: Result<RangeBlock, FetchError>)
      requires Live()
      modifies this
      ensures Valid() && slot == Emptied
      ensures old(slot).Filled? ==> r == old(slot).result
      ensures Answers(r)
    {
      if slot.Pending? {
        var fetched, asked := FetchAgentRange(server, start, rangeBytes, knownLen);
        slot, exchange := Filled(fetched), asked;
      }
      r := slot.result;
      slot := Emptied;
      Drop();
    }

    method Drop()
      modifies this`aborted
      ensures aborted
    {
      aborted := true;
    }
  }
}
