/** Framing of RTSP responses on a byte stream (airplay-helper/src/raop.rs). */
module Rtsp {
  import opened MachineWords
  import opened Wrappers

  type Bytes = seq<byte>

  const MAX_HEAD_BYTES: nat := 64 * 1024
  const MAX_BODY_BYTES: nat := 1024 * 1024
  const MAX_U16: nat := 0xFFFF

  const CR: byte := 13
  const LF: byte := 10
  const COLON: byte := 58
  const PLUS: byte := 43
  const CONTENT_LENGTH: Bytes := [99, 111, 110, 116, 101, 110, 116, 45, 108, 101, 110, 103, 116, 104]

  datatype RtspError = Closed | HeaderTooLarge | NoStatus | BadStatus | BadLength | BodyTooLarge | TimedOut | Broken

  datatype Response = Response(status: nat, headers: map<Bytes, Bytes>, body: Bytes)

  // ----- The text of a header -----

  predicate IsSpace(b: byte) {
    9 <= b <= 13 || b == 32
  }

  function TrimLeft(s: Bytes): Bytes {
    if s != [] && IsSpace(s[0]) then TrimLeft(s[1..]) else s
  }

  function TrimRight(s: Bytes): Bytes {
    if s != [] && IsSpace(s[|s| - 1]) then TrimRight(s[..|s| - 1]) else s
  }

  function Trim(s: Bytes): Bytes {
    TrimRight(TrimLeft(s))
  }

  /** The bytes up to the first white space. */
  function FirstWord(s: Bytes): (r: Bytes)
    ensures r <= s
  {
    if s == [] || IsSpace(s[0]) then [] else [s[0]] + FirstWord(s[1..])
  }

  function SecondWord(s: Bytes): Option<Bytes> {
    var first := TrimLeft(s);
    var rest := TrimLeft(first[|FirstWord(first)|..]);
    if rest == [] then None else Some(FirstWord(rest))
  }

  predicate IsDigit(b: byte) {
    48 <= b <= 57
  }

  function Digits(s: Bytes): Option<nat> {
    if s == [] then Some(0)
    else
      var last, before := s[|s| - 1], Digits(s[..|s| - 1]);
      if IsDigit(last) && before.Some? then Some(10 * before.value + (last as int - 48)) else None
  }

  /** A decimal number that fits: digits, after at most one plus sign. */
  function ParseNumber(s: Bytes, most: nat): Option<nat> {
    var digits := if s != [] && s[0] == PLUS then s[1..] else s;
    if digits == [] then None
    else match Digits(digits)
         case None => None
         case Some(n) => if n <= most then Some(n) else None
  }

  function Lower(s: Bytes): (r: Bytes)
    ensures |r| == |s|
  {
    seq(|s|, i requires 0 <= i < |s| => if 65 <= s[i] <= 90 then s[i] + 32 else s[i])
  }

  function IndexOf(s: Bytes, b: byte): (r: Option<nat>)
    ensures r.Some? ==> r.value < |s| && s[r.value] == b && b !in s[..r.value]
    ensures r.None? ==> b !in s
  {
    if s == [] then None
    else if s[0] == b then Some(0)
    else match IndexOf(s[1..], b) case None => None case Some(i) => Some(i + 1)
  }

  /** Where the first CRLF is. */
  function LineEnd(s: Bytes): (r: Option<nat>)
    ensures r.Some? ==> r.value + 1 < |s| && s[r.value] == CR && s[r.value + 1] == LF
  {
    if |s| < 2 then None
    else if s[0] == CR && s[1] == LF then Some(0)
    else match LineEnd(s[1..]) case None => None case Some(i) => Some(i + 1)
  }

  /** The pieces between CRLFs. */
  function Lines(s: Bytes): (r: seq<Bytes>)
    ensures r != []
    decreases |s|
  {
    match LineEnd(s)
    case None => [s]
    case Some(i) => [s[..i]] + Lines(s[i + 2..])
  }

  /** Later headers replace earlier ones of the same name; lines without a colon are skipped. */
  function Headers(lines: seq<Bytes>): map<Bytes, Bytes> {
    if lines == [] then map[]
    else
      var line, before := lines[|lines| - 1], Headers(lines[..|lines| - 1]);
      match IndexOf(line, COLON)
      case None => before
      case Some(i) => before[Lower(Trim(line[..i])) := Trim(line[i + 1..])]
  }

  datatype Head = Head(status: nat, headers: map<Bytes, Bytes>, contentLength: nat)

  function ParseHead(head: Bytes): Result<Head, RtspError> {
    var lines := Lines(head);
    match SecondWord(lines[0])
    case None => Err(NoStatus)
    case Some(word) =>
      match ParseNumber(word, MAX_U16)
      case None => Err(BadStatus)
      case Some(status) =>
        var headers := Headers(lines[1..]);
        if CONTENT_LENGTH !in headers then Ok(Head(status, headers, 0))
        else match ParseNumber(headers[CONTENT_LENGTH], U64_MAX)
             case None => Err(BadLength)
             case Some(length) => Ok(Head(status, headers, length))
  }

  // ----- What a stream of bytes says -----

  predicate Terminated(head: Bytes) {
    |head| >= 4 && head[|head| - 4..] == [CR, LF, CR, LF]
  }

  /** The shortest terminated prefix of at least this length. */
  function HeadLength(s: Bytes, from: nat): (r: Option<nat>)
    requires from <= |s|
    ensures r.Some? ==> from <= r.value <= |s| && Terminated(s[..r.value])
    ensures r.Some? ==> forall n: nat | from <= n < r.value :: !Terminated(s[..n])
    ensures r.None? ==> forall n: nat | from <= n <= |s| :: !Terminated(s[..n])
    decreases |s| - from
  {
    if Terminated(s[..from]) then Some(from) else if from == |s| then None else HeadLength(s, from + 1)
  }

  /** The next response and what follows it, or why there is none. */
  datatype Outcome = Parsed(response: Response, rest: Bytes) | Refused(error: RtspError)

  function Next(s: Bytes): Outcome {
    match HeadLength(s, 0)
    case None => Refused(if |s| <= MAX_HEAD_BYTES then Closed else HeaderTooLarge)
    case Some(n) => if n <= MAX_HEAD_BYTES then AfterHead(s, n) else Refused(HeaderTooLarge)
  }

  function AfterHead(s: Bytes, n: nat): Outcome
    requires n <= |s|
  {
    match ParseHead(s[..n])
    case Err(error) => Refused(error)
    case Ok(head) =>
      if head.contentLength > MAX_BODY_BYTES then Refused(BodyTooLarge)
      else if |s| < n + head.contentLength then Refused(Closed)
      else Parsed(Response(head.status, head.headers, s[n..n + head.contentLength]), s[n + head.contentLength..])
  }

  // ----- Successive responses -----

  function Concat(parts: seq<Bytes>): Bytes {
    if parts == [] then [] else parts[0] + Concat(parts[1..])
  }

  /** The bytes of one complete response, no more. */
  predicate Encodes(bytes: Bytes, response: Response) {
    Next(bytes) == Parsed(response, [])
  }

  predicate AllEncode(parts: seq<Bytes>, responses: seq<Response>) {
    |parts| == |responses| && forall i | 0 <= i < |parts| :: Encodes(parts[i], responses[i])
  }

  datatype Reading = Reading(responses: seq<Response>, unread: Bytes)

  /** What k successive reads return, if all succeed. */
  function ReadMany(s: Bytes, k: nat): Option<Reading> {
    if k == 0 then Some(Reading([], s))
    else match Next(s)
         case Refused(_) => None
         case Parsed(response, rest) =>
           match ReadMany(rest, k - 1)
           case None => None
           case Some(later) => Some(Reading([response] + later.responses, later.unread))
  }

  lemma {:induction false} HeadLengthAppend(s: Bytes, rest: Bytes, from: nat)
    requires from <= |s| && HeadLength(s, from).Some?
    ensures HeadLength(s + rest, from) == HeadLength(s, from)
    decreases |s| - from
  {
    hide Terminated;
    assert (s + rest)[..from] == s[..from];
    if !Terminated(s[..from]) {
      HeadLengthAppend(s, rest, from + 1);
    }
  }

  /** What follows a complete response does not change how it reads. */
  lemma NextAppend(s: Bytes, rest: Bytes, response: Response)
    requires Encodes(s, response)
    ensures Next(s + rest) == Parsed(response, rest)
  {
    hide ParseHead, HeadLength;
    HeadLengthAppend(s, rest, 0);
    var n := HeadLength(s, 0).value;
    assert (s + rest)[..n] == s[..n];
    var length := ParseHead(s[..n]).value.contentLength;
    assert s[n + length..] == [];
    assert (s + rest)[n..n + length] == s[n..n + length] && (s + rest)[n + length..] == rest;
  }

  /** k responses in a row read back in order, and what follows them stays unread. */
  lemma {:induction false} ResponsesInOrder(parts: seq<Bytes>, responses: seq<Response>, rest: Bytes)
    requires AllEncode(parts, responses)
    ensures ReadMany(Concat(parts) + rest, |parts|) == Some(Reading(responses, rest))
  {
    hide Next;
    if parts == [] {
      assert Concat(parts) + rest == rest && responses == [];
    } else {
      var following := Concat(parts[1..]) + rest;
      assert Encodes(parts[0], responses[0]);
      NextAppend(parts[0], following, responses[0]);
      ResponsesInOrder(parts[1..], responses[1..], rest);
      assert Concat(parts) + rest == parts[0] + following;
      assert responses == [responses[0]] + responses[1..];
    }
  }

  // ----- Reading from a socket -----

  datatype ReadResult = Data(bytes: Bytes) | Eof | Interrupted | NotReady(late: bool) | ReadFailed

  /** A socket: it hands over what is unread in pieces of any size, with any finite number of pauses.  A benign
      one neither fails nor is still pausing when the deadline has passed. */
  class ByteStream {
    var unread: Bytes
    var pauses: nat
    const benign: bool

    constructor (bytes: Bytes, pauses: nat, benign: bool)
      ensures unread == bytes && this.benign == benign
    {
      unread := bytes;
      this.pauses := pauses;
      this.benign := benign;
    }

    method Read(most: nat) returns (r: ReadResult)
      requires most > 0
      modifies this
      ensures r.Data? ==>
        && 0 < |r.bytes| <= most && old(unread) == r.bytes + unread && pauses == old(pauses)
      ensures !r.Data? ==> unread == old(unread)
      ensures r.Eof? ==> unread == [] && pauses == old(pauses)
      ensures r.Interrupted? || r.NotReady? ==> pauses < old(pauses)
      ensures benign ==> !r.ReadFailed? && (r.NotReady? ==> !r.late)
    {
      var choice: nat := *;
      if pauses > 0 && choice < 2 {
        pauses := pauses - 1;
        var late: bool := *;
        return if choice == 0 then Interrupted else NotReady(late && !benign);
      }
      if !benign && choice == 2 {
        return ReadFailed;
      }
      if unread == [] {
        return Eof;
      }
      var n: nat :| 0 < n <= most && n <= |unread|;
      r := Data(unread[..n]);
      assert unread == unread[..n] + unread[n..];
      unread := unread[n..];
    }
  }

  /** Fills the whole buffer from the stream, over however many reads it takes. */
  method ReadExactUntil(stream: ByteStream, buf: array<byte>) returns (error: Option<RtspError>)
    modifies stream, buf
    ensures error.None? ==> old(stream.unread) == buf[..] + stream.unread
    ensures error.Some? ==> error.value == Closed || (!stream.benign && error.value in {TimedOut, Broken})
    ensures error == Some(Closed) ==> |old(stream.unread)| < buf.Length
    ensures stream.benign && |old(stream.unread)| >= buf.Length ==> error.None?
  {
    var filled := 0;
    while filled < buf.Length
      invariant filled <= buf.Length && old(stream.unread) == buf[..filled] + stream.unread
      decreases buf.Length - filled, stream.pauses
    {
      var r := stream.Read(buf.Length - filled);
      match r
      case Data(bytes) =>
        ghost var before := buf[..filled];
        forall i | 0 <= i < |bytes| {
          buf[filled + i] := bytes[i];
        }
        assert buf[..filled + |bytes|] == before + bytes;
        filled := filled + |bytes|;
      case Eof => return Some(Closed);
      case Interrupted =>
      case NotReady(late) =>
        if late {
          return Some(TimedOut);
        }
      case ReadFailed => return Some(Broken);
    }
    assert buf[..filled] == buf[..];
    error := None;
  }

  method ReadHead(stream: ByteStream) returns (r: Result<Bytes, RtspError>)
    modifies stream
    ensures r.Ok? ==> old(stream.unread) == r.value + stream.unread && |r.value| <= MAX_HEAD_BYTES
    ensures r.Ok? ==> HeadLength(old(stream.unread), 0) == Some(|r.value|)
    ensures r.Err? ==> Fails(stream, r.error) || NoHead(old(stream.unread), r.error)
  {
    hide Terminated, HeadLength;
    var head: Bytes := [];
    var buf := new byte[1];
    ghost var all := stream.unread;
    EmptyIsOpen(all);
    while !Terminated(head)
      invariant all == head + stream.unread && |head| <= MAX_HEAD_BYTES
      invariant forall n: nat | n < |head| :: !Terminated(all[..n])
      decreases MAX_HEAD_BYTES + 1 - |head|
    {
      assert all[..|head|] == head;
      var error := ReadExactUntil(stream, buf);
      if error.Some? {
        NeverTerminated(all, |head|);
        return Err(error.value);
      }
      head := head + [buf[0]];
      assert buf[..] == [buf[0]];
      if |head| > MAX_HEAD_BYTES {
        NeverTerminated(all, |head| - 1);
        return Err(HeaderTooLarge);
      }
    }
    assert all[..|head|] == head;
    HeadIs(all, |head|);
    r := Ok(head);
  }

  /** Only a stream that is not benign times out or breaks. */
  predicate Fails(stream: ByteStream, error: RtspError) {
    !stream.benign && error in {TimedOut, Broken}
  }

  /** The stream ends before its header does, or the header is over the limit. */
  predicate NoHead(all: Bytes, error: RtspError) {
    if |all| <= MAX_HEAD_BYTES then HeadLength(all, 0).None? && error == Closed
    else (HeadLength(all, 0).Some? ==> HeadLength(all, 0).value > MAX_HEAD_BYTES) && error == HeaderTooLarge
  }

  lemma EmptyIsOpen(all: Bytes)
    ensures !Terminated([])
  {
  }

  lemma NeverTerminated(all: Bytes, read: nat)
    requires read <= |all| && forall n: nat | n <= read :: !Terminated(all[..n])
    ensures |all| == read ==> HeadLength(all, 0) == None
    ensures HeadLength(all, 0).Some? ==> HeadLength(all, 0).value > read
  {
    hide Terminated;
  }

  lemma HeadIs(all: Bytes, n: nat)
    requires n <= |all| && Terminated(all[..n]) && forall k: nat | k < n :: !Terminated(all[..k])
    ensures HeadLength(all, 0) == Some(n)
  {
    hide Terminated;
  }

  /** The next response, and the stream left exactly where it ends; or the reason there is none. */
  method ReadRtspResponse(stream: ByteStream) returns (r: Result<Response, RtspError>)
    modifies stream
    ensures r.Ok? ==> Next(old(stream.unread)) == Parsed(r.value, stream.unread)
    ensures r.Err? ==> Fails(stream, r.error) || Next(old(stream.unread)) == Refused(r.error)
    ensures stream.benign && Next(old(stream.unread)).Parsed? ==> r.Ok?
  {
    hide HeadLength, Terminated, ParseHead;
    ghost var all := stream.unread;
    var head := ReadHead(stream);
    if head.Err? {
      return Err(head.error);
    }
    ghost var n := |head.value|;
    assert all[..n] == head.value && stream.unread == all[n..];
    var parsed := ParseHead(head.value);
    if parsed.Err? {
      return Err(parsed.error);
    }
    var contentLength := parsed.value.contentLength;
    if contentLength > MAX_BODY_BYTES {
      return Err(BodyTooLarge);
    }
    var body := new byte[contentLength];
    if contentLength > 0 {
      var error := ReadExactUntil(stream, body);
      if error.Some? {
        return Err(error.value);
      }
    }
    assert all[n..] == body[..] + stream.unread;
    assert all[n..n + contentLength] == body[..] && all[n + contentLength..] == stream.unread;
    r := Ok(Response(parsed.value.status, parsed.value.headers, body[..]));
  }
}
