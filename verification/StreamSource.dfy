/** The agent's Read + Seek cursor over a remote file (src/agent/stream_source.rs):
    one installed buffer, one spare block and one lookahead. */
module StreamSource {
  import opened MachineWords
  import opened Numbers
  import opened RangeFetch
  import opened Wrappers

  const AGENT_STREAM_PREFETCH_BYTES: u64 := 2 * 1024 * 1024
  const AGENT_STREAM_RANGE_BYTES: u64 := 8 * 1024 * 1024

  type i64 = n: int | -0x8000_0000_0000_0000 <= n < 0x8000_0000_0000_0000

  datatype SeekFrom = Start(pos: u64) | Current(delta: i64) | End(delta: i64)

  datatype IoError = Unsupported | InvalidInput | Other(FetchError)

  /** Where a seek asks to go, if the length it needs is known. */
  function Target(from: SeekFrom, position: u64, byteLen: Option<u64>): Option<int> {
    match from
    case Start(pos) => Some(pos)
    case Current(delta) => Some(position + delta)
    case End(delta) => if byteLen.Some? then Some(byteLen.value + delta) else None
  }

  /** Where a seek to target lands: the narrowing to 64 bits comes before the clamp. */
  function Landing(target: nat, byteLen: Option<u64>): u64 {
    var t := target % TWO_TO_64;
    if byteLen.Some? then Lesser(t, byteLen.value) else t
  }

  /** A request for the range at a position, which failed exactly if its response cannot be used. */
  ghost predicate InlineFetch(file: seq<byte>, e: Exchange, at: u64, rangeBytes: u64, failed: bool) {
    && Honest(file, e.first, e.last, e.response) && (failed <==> !Usable(e, rangeBytes))
    && exists known: Option<u64> :: RightLength(file, known) && AsksFor(e, at, rangeBytes, known)
  }

  class AgentStreamSource {
    const server: Server
    const rangeBytes: u64
    var position: u64
    var byteLen: Option<u64>
    var bufferStart: u64
    var buffer: seq<byte>
    var nextBlock: Option<RangeBlock>
    var prefetch: RangePrefetch?
    /** The requests made while a reader waited, oldest first. */
    ghost var inline: seq<Exchange>

    ghost function Repr(): set<object>
      reads this
    {
      if prefetch == null then {this} else {this, prefetch}
    }

    ghost predicate Valid()
      reads this, prefetch
    {
      && |server.file| <= U64_MAX
      && RightLength(server.file, byteLen)
      && BlockOf(server.file, RangeBlock(bufferStart, buffer, byteLen))
      && (nextBlock.Some? ==> BlockOf(server.file, nextBlock.value))
      && (prefetch != null ==> prefetch.server == server && prefetch.rangeBytes == rangeBytes && prefetch.Live())
      // The lookahead and the spare block are never both present.
      && (prefetch != null ==> nextBlock.None?)
    }

    /** Fails exactly when the response to the first request cannot be used. */
    method Open(from: Server) returns (r: Result<AgentStreamSource, FetchError>, ghost first: Exchange)
      requires |from.file| <= U64_MAX
      ensures AsksFor(first, 0, AGENT_STREAM_PREFETCH_BYTES, None)
      ensures Honest(from.file, first.first, first.last, first.response)
      ensures r.Ok? <==> Usable(first, AGENT_STREAM_PREFETCH_BYTES)
      ensures r.Ok? ==> fresh(r.value) && fresh(r.value.Repr()) && r.value.Valid()
      ensures r.Ok? ==> r.value.server == from && r.value.position == 0 && r.value.inline == []
      ensures r.Ok? ==> r.value.rangeBytes == AGENT_STREAM_RANGE_BYTES
      ensures r.Ok? ==> r.value.bufferStart == 0 && r.value.buffer == first.response.body.value && r.value.Primed()
    {
      var initial, asked := FetchAgentRange(from, 0, AGENT_STREAM_PREFETCH_BYTES, None);
      first := asked.value;
      if initial.Err? {
        return Err(initial.error), first;
      }
      var source := new AgentStreamSource.Opened(from, initial.value);
      source.StartPrefetchNext();
      r := Ok(source);
    }

    constructor Opened(from: Server, initial: RangeBlock)
      requires |from.file| <= U64_MAX && BlockOf(from.file, initial)
      ensures Valid() && server == from && position == 0 && prefetch == null && nextBlock.None?
      ensures inline == [] && rangeBytes == AGENT_STREAM_RANGE_BYTES
      ensures bufferStart == initial.start && buffer == initial.bytes
    {
      server := from;
      rangeBytes := AGENT_STREAM_RANGE_BYTES;
      position := 0;
      byteLen := initial.byteLen;
      bufferStart := initial.start;
      buffer := initial.bytes;
      nextBlock := None;
      prefetch := null;
      inline := [];
    }

    predicate BufferContains(at: u64)
      reads this
    {
      bufferStart <= at < SaturatingAdd(bufferStart, |buffer|)
    }

    predicate NextBlockContains(at: u64)
      reads this
    {
      nextBlock.Some? && nextBlock.value.Contains(at)
    }

    function BufferEnd(): u64
      reads this
    {
      SaturatingAdd(bufferStart, |buffer|)
    }

    /** The next block is held, being fetched, or known not to exist. */
    predicate Primed()
      reads this
    {
      prefetch != null || nextBlock.Some? || buffer == [] || (byteLen.Some? && BufferEnd() >= byteLen.value)
    }

    /** The spare block or a finished lookahead has the byte at a position. */
    ghost predicate AheadHas(at: u64)
      reads this, prefetch
    {
      || (nextBlock.Some? && nextBlock.value.start <= at < nextBlock.value.start + |nextBlock.value.bytes|)
      || (prefetch != null && prefetch.slot.Filled? && prefetch.slot.result.Ok?
          && prefetch.slot.result.value.start <= at < prefetch.slot.result.value.start + |prefetch.slot.result.value.bytes|)
    }

    /** Between before and now there was no request, or one for the range at a position. */
    ghost predicate InlineStep(before: seq<Exchange>, at: u64, failed: bool)
      reads this
    {
      if inline == before then !failed
      else
        && |inline| == |before| + 1 && inline[..|before|] == before
        && InlineFetch(server.file, inline[|before|], at, rangeBytes, failed)
    }

    /** What no internal step changes. */
    twostate predicate Steady()
      requires old(Valid())
      reads this, prefetch
    {
      && Valid()
      && position == old(position)
      && fresh(Repr() - old(Repr()))
      && (old(byteLen).Some? ==> byteLen == old(byteLen))
    }

    method Read(buf: array<byte>) returns (r: Result<nat, IoError>)
      requires Valid()
      modifies Repr(), buf
      ensures Valid() && fresh(Repr() - old(Repr()))
      ensures old(byteLen).Some? ==> byteLen == old(byteLen)
      ensures r.Ok? ==>
        && r.value <= buf.Length
        && position == old(position) + r.value
        && (r.value > 0 ==> position <= |server.file| && buf[..r.value] == server.file[old(position)..position])
        && buf[r.value..] == old(buf[..])[r.value..]
        && (r.value == 0 && buf.Length > 0 ==> position >= |server.file|)
        && (r.value > 0 ==> Primed() && (r.value == buf.Length || position == bufferStart + |buffer|))
      ensures r.Err? ==>
        && buf.Length > 0
        && position == old(position)
        && buf[..] == old(buf[..])
      // A read fails exactly when it has to ask and the response cannot be used.
      ensures InlineStep(old(inline), old(position), r.Err?)
      ensures old(bufferStart <= position < bufferStart + |buffer|) || old(AheadHas(position)) ==> inline == old(inline)
      ensures old(prefetch) != null && old(Awaits(position)) && inline != old(inline) ==> old(prefetch).slot.Emptied?
    {
      if buf.Length == 0 {
        return Ok(0);
      }
      if byteLen.Some? && position >= byteLen.value {
        return Ok(0);
      }
      var filled := Fill();
      if filled.Err? {
        return Err(filled.error);
      }
      if filled.value == 0 {
        return Ok(0);
      }
      var readLen := CopyOut(buf, filled.value);
      Refill();
      r := Ok(readLen);
    }

    /** The lookahead asked for a range with the position in it. */
    ghost predicate Awaits(at: u64)
      reads this
    {
      prefetch != null && prefetch.start <= at < Lesser(prefetch.start + rangeBytes, U64_MAX)
    }

    /** Makes the bytes at the cursor available and starts the next lookahead; answers how many. */
    method Fill() returns (available: Result<nat, IoError>)
      requires Valid()
      modifies Repr()
      ensures Steady()
      ensures available.Ok? ==>
        if available.value == 0 then position >= |server.file|
        else BufferContains(position) && available.value == Available()
      ensures InlineStep(old(inline), position, available.Err?)
      ensures old(BufferContains(position)) || old(AheadHas(position)) ==> inline == old(inline)
      ensures old(prefetch) != null && old(Awaits(position)) && inline != old(inline) ==> old(prefetch).slot.Emptied?
    {
      CollectPrefetch();
      if !BufferContains(position) {
        var loaded := LoadBufferAt(position);
        if loaded.Err? {
          return Err(loaded.error);
        }
        if buffer == [] {
          return Ok(0);
        }
      }
      StartPrefetchNext();
      available := Ok(Available());
    }

    /** Takes a finished lookahead, then starts the next one. */
    method Refill()
      requires Valid()
      modifies Repr()
      ensures Steady() && inline == old(inline) && Primed()
      ensures bufferStart == old(bufferStart) && buffer == old(buffer)
      ensures prefetch != old(prefetch) && old(prefetch) != null ==> old(prefetch).slot.Emptied?
    {
      CollectPrefetch();
      StartPrefetchNext();
    }

    /** Buffered bytes at or after the cursor. */
    function Available(): nat
      reads this
    {
      var offset := if position >= bufferStart then position - bufferStart else 0;
      if |buffer| >= offset then |buffer| - offset else 0
    }

    method CopyOut(buf: array<byte>, available: nat) returns (readLen: nat)
      requires Valid() && BufferContains(position) && available == Available()
      modifies this`position, buf
      ensures Valid() && readLen == Lesser(available, buf.Length)
      ensures position == old(position) + readLen <= |server.file|
      ensures buf[..readLen] == server.file[old(position)..position]
      ensures buf[readLen..] == old(buf[..])[readLen..]
    {
      var offset := position - bufferStart;
      readLen := Lesser(available, buf.Length);
      forall i | 0 <= i < readLen {
        buf[i] := buffer[offset + i];
      }
      position := SaturatingAdd(position, readLen);
    }

    method Seek(from: SeekFrom) returns (r: Result<u64, IoError>)
      requires Valid()
      modifies Repr()
      ensures Valid() && fresh(Repr() - old(Repr()))
      ensures byteLen == old(byteLen) && inline == old(inline)
      ensures var target := Target(from, old(position), byteLen);
        r == if target.None? then Err(Unsupported)
             else if target.value < 0 then Err(InvalidInput)
             else Ok(Landing(target.value, byteLen))
      ensures position == if r.Ok? then r.value else old(position)
      ensures buffer == old(buffer) && bufferStart == old(bufferStart)
      ensures if r.Err? then nextBlock == old(nextBlock) && prefetch == old(prefetch) else Kept(position, old(prefetch))
    {
      var goal: int;
      match from {
        case Start(pos) => goal := pos;
        case Current(delta) => goal := position + delta;
        case End(delta) =>
          if byteLen.None? {
            return Err(Unsupported);
          }
          goal := byteLen.value + delta;
      }
      if goal < 0 {
        return Err(InvalidInput);
      }
      var target: u64 := goal % TWO_TO_64;
      if byteLen.Some? {
        target := Lesser(target, byteLen.value);
      }
      position := target;
      Abandon(target);
      r := Ok(position);
    }

    /** A seek inside what is held or coming keeps it; any other abandons both. */
    twostate predicate Kept(target: u64, lookahead: RangePrefetch?)
      reads this, lookahead
    {
      var near :=
        || bufferStart <= target < bufferStart + |buffer|
        || (old(nextBlock).Some? &&
            old(nextBlock).value.start <= target < old(nextBlock).value.start + |old(nextBlock).value.bytes|);
      && nextBlock == (if near then old(nextBlock) else None)
      && (if near || lookahead == null || lookahead.start <= target < Lesser(lookahead.start + lookahead.rangeBytes, U64_MAX)
          then prefetch == lookahead
          else prefetch == null && lookahead.aborted)
    }

    method Abandon(target: u64)
      requires Valid()
      modifies this`nextBlock, this`prefetch, prefetch
      ensures Valid() && Kept(target, old(prefetch)) && fresh(Repr() - old(Repr()))
    {
      if !BufferContains(target) && !NextBlockContains(target) {
        if prefetch != null {
          if !prefetch.CouldContain(target) {
            prefetch.Drop();
            prefetch := null;
          }
        }
        nextBlock := None;
      }
    }

    method LoadBufferAt(start: u64) returns (r: Result<(), IoError>)
      requires Valid()
      modifies Repr()
      ensures Steady()
      ensures r.Ok? ==> BufferContains(start) || (buffer == [] && start >= |server.file|)
      ensures InlineStep(old(inline), start, r.Err?)
      ensures old(AheadHas(start)) ==> inline == old(inline)
      ensures old(prefetch) != null && old(Awaits(start)) && inline != old(inline) ==> old(prefetch).slot.Emptied?
    {
      hide BlockOf, InlineFetch;
      var ahead := LoadFromLookahead(start);
      if !ahead {
        r := FetchInline(start);
        if r.Err? {
          return;
        }
      }
      StartPrefetchNext();
      r := Ok(());
    }

    /** Asks for the range at a position while the reader waits. */
    method FetchInline(start: u64) returns (r: Result<(), IoError>)
      requires Valid()
      modifies this`inline, this`byteLen, this`bufferStart, this`buffer
      ensures Valid() && (old(byteLen).Some? ==> byteLen == old(byteLen))
      ensures r.Ok? ==> BufferContains(start) || (buffer == [] && start >= |server.file|)
      ensures InlineStep(old(inline), start, r.Err?)
    {
      var fetched, asked := FetchAgentRange(server, start, rangeBytes, byteLen);
      if asked.Some? {
        inline := inline + [asked.value];
      }
      if fetched.Err? {
        return Err(Other(fetched.error));
      }
      InstallBlock(fetched.value);
      r := Ok(());
    }

    /** The spare block if it serves start, otherwise the lookahead if it might. */
    method LoadFromLookahead(start: u64) returns (loaded: bool)
      requires Valid()
      modifies Repr()
      ensures Steady() && inline == old(inline)
      ensures loaded ==> BufferContains(start) || (buffer == [] && start >= |server.file|)
      ensures old(AheadHas(start)) ==> loaded
      ensures old(prefetch) != null && old(Awaits(start)) ==> old(prefetch).slot.Emptied? || loaded
    {
      ghost var awaited: Option<Result<RangeBlock, FetchError>>;
      CollectPrefetch();
      loaded := InstallNextBlockIfContains(start);
      if !loaded {
        loaded, awaited := WaitForPrefetchIfContains(start);
      }
    }

    method InstallBlock(block: RangeBlock)
      requires Valid() && BlockOf(server.file, block)
      modifies this`byteLen, this`bufferStart, this`buffer
      ensures Valid()
      ensures bufferStart == block.start && buffer == block.bytes
      ensures byteLen == block.byteLen.Or(old(byteLen))
    {
      byteLen := block.byteLen.Or(byteLen);
      bufferStart := block.start;
      buffer := block.bytes;
    }

    /** The block has the byte at a position, or says that the file ends there. */
    ghost predicate Serves(block: RangeBlock, at: u64, known: Option<u64>) {
      || block.start <= at < block.start + |block.bytes|
      || (block.bytes == [] && at == block.start &&
          if known.Some? then at >= known.value else block.byteLen.Some? && at >= block.byteLen.value)
    }

    /** The block is the buffer, and what it knows of the length is known. */
    ghost predicate Installed(block: RangeBlock, known: Option<u64>)
      reads this
    {
      && bufferStart == block.start && buffer == block.bytes
      && byteLen == if block.byteLen.Some? then block.byteLen else known
    }

    method InstallNextBlockIfContains(at: u64) returns (installed: bool)
      requires Valid()
      modifies this`byteLen, this`bufferStart, this`buffer, this`nextBlock
      ensures Valid() && (old(byteLen).Some? ==> byteLen == old(byteLen))
      ensures installed <==> old(nextBlock).Some? && Serves(old(nextBlock).value, at, old(byteLen))
      ensures installed ==> BufferContains(at) || (buffer == [] && at >= |server.file|)
      ensures installed ==> nextBlock.None? && Installed(old(nextBlock).value, old(byteLen))
      ensures !installed ==> nextBlock == old(nextBlock) && byteLen == old(byteLen)
      ensures !installed ==> bufferStart == old(bufferStart) && buffer == old(buffer)
    {
      if nextBlock.None? {
        return false;
      }
      var block := nextBlock.value;
      nextBlock := None;
      if block.Contains(at) || block.IsEmptyAt(at, byteLen) {
        InstallBlock(block);
        return true;
      }
      nextBlock := Some(block);
      installed := false;
    }

    method WaitForPrefetchIfContains(at: u64)
      returns (arrived: bool, ghost awaited: Option<Result<RangeBlock, FetchError>>)
      requires Valid()
      modifies Repr()
      ensures Steady() && inline == old(inline)
      ensures arrived ==> BufferContains(at) || (buffer == [] && at >= |server.file|)
      ensures awaited.Some? <==> old(Awaits(at))
      ensures awaited.None? ==> !arrived && prefetch == old(prefetch) && nextBlock == old(nextBlock)
      ensures awaited.Some? ==> prefetch == null && old(prefetch).slot.Emptied? && old(prefetch).Answers(awaited.value)
      ensures awaited.Some? && old(prefetch.slot).Filled? ==> awaited.value == old(prefetch.slot).result
      ensures arrived <==> awaited.Some? && awaited.value.Ok? && Serves(awaited.value.value, at, old(byteLen))
      ensures arrived ==> Installed(awaited.value.value, old(byteLen)) && nextBlock == old(nextBlock)
      ensures !arrived ==> bufferStart == old(bufferStart) && buffer == old(buffer) && byteLen == old(byteLen)
      ensures awaited.Some? && !arrived ==>
        nextBlock == if awaited.value.Ok? then Some(awaited.value.value) else old(nextBlock)
    {
      hide Fetched;
      awaited := None;
      if prefetch == null {
        return false, None;
      }
      var lookahead := prefetch;
      if !lookahead.CouldContain(at) {
        return false, None;
      }
      prefetch := null;
      var result := lookahead.Wait();
      awaited := Some(result);
      match result
      case Ok(block) =>
        if block.Contains(at) || block.IsEmptyAt(at, byteLen) {
          InstallBlock(block);
          return true, awaited;
        }
        nextBlock := Some(block);
        arrived := false;
      case Err(_) =>
        arrived := false;
    }

    method CollectPrefetch()
      requires Valid()
      modifies Repr()
      ensures Steady() && inline == old(inline)
      ensures bufferStart == old(bufferStart) && buffer == old(buffer)
      ensures prefetch == null || prefetch == old(prefetch)
      ensures old(prefetch) != null && prefetch == null ==> old(prefetch).slot.Emptied?
      // No unread spare block is overwritten.
      ensures old(nextBlock).Some? ==> nextBlock == old(nextBlock)
      ensures prefetch != null ==> nextBlock == old(nextBlock) && byteLen == old(byteLen)
      ensures old(prefetch) != null && old(prefetch.slot).Filled? ==>
        && prefetch == null
        && match old(prefetch.slot).result
           case Ok(block) =>
             && byteLen == block.byteLen.Or(old(byteLen))
             && nextBlock == if block.bytes != [] then Some(block) else None
           case Err(_) => byteLen == old(byteLen) && nextBlock.None?
    {
      if prefetch == null {
        return;
      }
      var result := prefetch.TryTake();
      if result.None? {
        return;
      }
      prefetch.Drop();
      prefetch := null;
      match result.value
      case Ok(block) =>
        byteLen := block.byteLen.Or(byteLen);
        if block.bytes != [] {
          nextBlock := Some(block);
        }
      case Err(_) =>
    }

    method StartPrefetchNext()
      requires Valid()
      modifies Repr()
      ensures Steady() && inline == old(inline)
      ensures bufferStart == old(bufferStart) && buffer == old(buffer) && Primed()
      ensures prefetch != null && prefetch != old(prefetch) ==>
        prefetch.start == bufferStart + |buffer| && prefetch.rangeBytes == rangeBytes
      ensures old(prefetch) != null && prefetch != old(prefetch) ==> old(prefetch).slot.Emptied?
    {
      CollectPrefetch();
      if prefetch != null || nextBlock.Some? || buffer == [] {
        return;
      }
      var start := BufferEnd();
      if byteLen.Some? && start >= byteLen.value {
        return;
      }
      prefetch := new RangePrefetch(server, start, rangeBytes, byteLen);
    }
  }

  // ----- The cursor the source stands for -----

  datatype Request = Reading(room: nat) | Seeking(from: SeekFrom)

  datatype Reply = Bytes(bytes: seq<byte>) | Moved(to: u64) | Failed

  /** One step of a plain cursor at position at over file.  byteLen is what is known of the length. */
  ghost predicate CursorStep(file: seq<byte>, at: u64, request: Request, reply: Reply, byteLen: Option<u64>, next: u64) {
    match (request, reply)
    case (Reading(room), Failed) => room > 0 && next == at
    case (Seeking(from), Failed) =>
      var target := Target(from, at, byteLen);
      (target.None? || target.value < 0) && next == at
    case (Reading(room), Bytes(bytes)) =>
      && |bytes| <= room
      && next == at + |bytes|
      && (if bytes == [] then room == 0 || at >= |file| else next <= |file| && bytes == file[at..next])
    case (Seeking(from), Moved(to)) =>
      var target := Target(from, at, byteLen);
      target.Some? && target.value >= 0 && next == to == Landing(target.value, byteLen)
    case _ => false
  }

  /** A whole run of the cursor; lengths[i] is what is known of the length when request i is served. */
  ghost predicate CursorRun(file: seq<byte>, positions: seq<u64>, lengths: seq<Option<u64>>,
                            requests: seq<Request>, replies: seq<Reply>) {
    && |positions| == |requests| + 1 && |lengths| == |replies| == |requests|
    && (forall i | 0 <= i < |requests| ::
          && RightLength(file, lengths[i])
          && CursorStep(file, positions[i], requests[i], replies[i], lengths[i], positions[i + 1]))
  }

  /** Requests that came back with nothing a read can use. */
  ghost function Lost(inline: seq<Exchange>, rangeBytes: u64): nat {
    if inline == [] then 0
    else Lost(inline[..|inline| - 1], rangeBytes) + if Usable(inline[|inline| - 1], rangeBytes) then 0 else 1
  }

  ghost function FailedReads(requests: seq<Request>, replies: seq<Reply>): nat
    requires |requests| == |replies|
  {
    if replies == [] then 0
    else
      var k := |replies| - 1;
      FailedReads(requests[..k], replies[..k]) + if requests[k].Reading? && replies[k].Failed? then 1 else 0
  }

  lemma NoReplies()
    ensures FailedReads([], []) == 0
  {
  }

  lemma OneMoreExchange(inline: seq<Exchange>, e: Exchange, rangeBytes: u64)
    ensures Lost(inline + [e], rangeBytes) == Lost(inline, rangeBytes) + if Usable(e, rangeBytes) then 0 else 1
  {
    assert (inline + [e])[..|inline|] == inline;
  }

  lemma OneMoreReply(requests: seq<Request>, replies: seq<Reply>, request: Request, reply: Reply)
    requires |requests| == |replies|
    ensures FailedReads(requests + [request], replies + [reply]) ==
            FailedReads(requests, replies) + if request.Reading? && reply.Failed? then 1 else 0
  {
    assert (requests + [request])[..|requests|] == requests && (replies + [reply])[..|replies|] == replies;
  }

  /** Any client: whatever it asks, and however lookaheads finish, fail or fall short, the
      replies are those of the plain cursor. */
  method Serve(source: AgentStreamSource, requests: seq<Request>)
    returns (replies: seq<Reply>, ghost positions: seq<u64>, ghost lengths: seq<Option<u64>>)
    requires source.Valid()
    modifies source.Repr()
    ensures source.Valid()
    ensures CursorRun(source.server.file, positions, lengths, requests, replies)
    ensures positions[0] == old(source.position) && positions[|requests|] == source.position
    // Reads fail exactly as often as a request made for one comes back with nothing to use.
    ensures FailedReads(requests, replies) == Lost(source.inline, source.rangeBytes) - old(Lost(source.inline, source.rangeBytes))
  {
    hide Lost, FailedReads, CursorStep, Landing, Target;
    NoReplies();
    replies, positions, lengths := [], [source.position], [];
    for i := 0 to |requests|
      invariant source.Valid() && fresh(source.Repr() - old(source.Repr()))
      invariant |replies| == i
      invariant CursorRun(source.server.file, positions, lengths, requests[..i], replies)
      invariant positions[0] == old(source.position) && positions[i] == source.position
      invariant FailedReads(requests[..i], replies) ==
                Lost(source.inline, source.rangeBytes) - old(Lost(source.inline, source.rangeBytes))
    {
      ghost var before := replies;
      ghost var at, known := source.position, source.byteLen;
      var reply := Answer(source, requests[i]);
      replies := replies + [reply];
      positions := positions + [source.position];
      lengths := lengths + [known];
      assert requests[..i + 1] == requests[..i] + [requests[i]];
      OneMoreReply(requests[..i], before, requests[i], reply);
    }
    assert requests[..|requests|] == requests;
  }

  method Answer(source: AgentStreamSource, request: Request) returns (reply: Reply)
    requires source.Valid()
    modifies source.Repr()
    ensures source.Valid() && fresh(source.Repr() - old(source.Repr()))
    ensures CursorStep(source.server.file, old(source.position), request, reply, old(source.byteLen), source.position)
    ensures Lost(source.inline, source.rangeBytes) ==
            old(Lost(source.inline, source.rangeBytes)) + if request.Reading? && reply.Failed? then 1 else 0
  {
    ghost var before := source.inline;
    match request
    case Reading(room) =>
      var buf := new byte[room];
      var r := source.Read(buf);
      reply := if r.Ok? then Bytes(buf[..r.value]) else Failed;
      if source.inline != before {
        assert source.inline == before + [source.inline[|before|]];
        OneMoreExchange(before, source.inline[|before|], source.rangeBytes);
      }
    case Seeking(from) =>
      var r := source.Seek(from);
      reply := if r.Ok? then Moved(r.value) else Failed;
  }

  // ----- What the cursor guarantees its client -----

  /** The bytes a run of replies delivered, in order. */
  ghost function Delivered(replies: seq<Reply>): seq<byte> {
    if replies == [] then []
    else
      var last := replies[|replies| - 1];
      Delivered(replies[..|replies| - 1]) + if last.Bytes? then last.bytes else []
  }

  /** Reading without seeking delivers the file from the first position on, each byte once and
      in order, whatever reads failed in between; an empty answer to a real request means all of it. */
  lemma {:induction false} ReadingDeliversTheFile(file: seq<byte>, positions: seq<u64>, lengths: seq<Option<u64>>,
                                                  requests: seq<Request>, replies: seq<Reply>)
    requires CursorRun(file, positions, lengths, requests, replies)
    requires forall q | q in requests :: q.Reading? && q.room > 0
    requires positions[0] <= |file|
    ensures positions[0] <= positions[|requests|] <= |file|
    ensures Delivered(replies) == file[positions[0]..positions[|requests|]]
    ensures replies != [] && replies[|replies| - 1] == Bytes([]) ==> Delivered(replies) == file[positions[0]..]
  {
    var n := |requests|;
    if n > 0 {
      ReadingDeliversTheFile(file, positions[..n], lengths[..n - 1], requests[..n - 1], replies[..n - 1]);
      assert requests[n - 1] in requests;
      assert CursorStep(file, positions[n - 1], requests[n - 1], replies[n - 1], lengths[n - 1], positions[n]);
    }
  }

  /** A seek lands where asked, clamped to a known length, exactly when the target fits 64 bits,
      or overflows so far that even its low 64 bits are past the known end. */
  lemma SeekIsExact(from: SeekFrom, position: u64, byteLen: Option<u64>)
    requires Target(from, position, byteLen).Some? && Target(from, position, byteLen).value >= 0
    ensures var target := Target(from, position, byteLen).value;
      Landing(target, byteLen) == (if byteLen.Some? then Lesser(target, byteLen.value) else target)
      <==> target <= U64_MAX || (byteLen.Some? && target - TWO_TO_64 >= byteLen.value)
  {
    var target := Target(from, position, byteLen).value;
    if target > U64_MAX {
      assert target % TWO_TO_64 == target - TWO_TO_64;
    }
  }

  lemma FittingSeekLands(from: SeekFrom, position: u64, byteLen: Option<u64>)
    ensures var target := Target(from, position, byteLen);
      target.Some? && 0 <= target.value <= U64_MAX ==>
        Landing(target.value, byteLen) == if byteLen.Some? then Lesser(target.value, byteLen.value) else target.value
  {
  }

  /** A seek by an offset that fits, then a read that gets something: the bytes are those at the offset from the
      start, from the cursor, or back from the end. */
  lemma SeekThenRead(file: seq<byte>, positions: seq<u64>, byteLen: Option<u64>, from: SeekFrom, room: nat,
                     replies: seq<Reply>, known: Option<u64>)
    requires |file| <= U64_MAX && |positions| == 3
    requires CursorRun(file, positions, [byteLen, known], [Seeking(from), Reading(room)], replies)
    requires replies[0].Moved? && replies[1].Bytes? && replies[1].bytes != []
    ensures var base: int := match from case Start(_) => 0 case Current(_) => positions[0] case End(_) => |file|;
      var offset: int := match from case Start(pos) => pos case Current(delta) => delta case End(delta) => delta;
      var at := base + offset;
      0 <= at <= U64_MAX ==>
        at < |file| && at + |replies[1].bytes| <= |file| && replies[1].bytes == file[at..at + |replies[1].bytes|]
  {
    assert RightLength(file, byteLen);
    assert CursorStep(file, positions[0], Seeking(from), replies[0], byteLen, positions[1]);
    hide Landing;
    FittingSeekLands(from, positions[0], byteLen);
    assert CursorStep(file, positions[1], Reading(room), replies[1], known, positions[2]);
  }

  /** With the length unknown, two bytes on from the last position is position 1. */
  lemma SeekCanWrap()
    ensures Landing(Target(Current(2), U64_MAX, None).value, None) == 1
  {
  }
}
