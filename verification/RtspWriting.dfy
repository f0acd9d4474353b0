/** Responses written line by line (sections 4.4 and 7 of RFC 2326), and why the helper reads back what was
    written (airplay-helper/src/raop.rs). */
module RtspWriting {
  import opened MachineWords
  import opened Rtsp
  import opened Wrappers

  const SPACE: byte := 32
  const LINE_END: Bytes := [CR, LF]
  const BLANK: Bytes := [CR, LF, CR, LF]
  const VERSION: Bytes := [82, 84, 83, 80, 47, 49, 46, 48]
  const LENGTH_NAME: Bytes := [67, 111, 110, 116, 101, 110, 116, 45, 76, 101, 110, 103, 116, 104]

  predicate Plain(line: Bytes) {
    line != [] && CR !in line && LF !in line
  }

  function Decimal(n: nat): (r: Bytes)
    ensures r != [] && forall i | 0 <= i < |r| :: IsDigit(r[i])
  {
    if n < 10 then [(48 + n) as byte] else Decimal(n / 10) + [(48 + n % 10) as byte]
  }

  function StatusLine(status: nat, reason: Bytes): Bytes {
    VERSION + [SPACE] + Decimal(status) + [SPACE] + reason
  }

  function LengthLine(name: Bytes, length: nat): Bytes {
    name + [COLON, SPACE] + Decimal(length)
  }

  /** Each line with its CRLF, then an empty line. */
  function WriteHead(lines: seq<Bytes>): Bytes {
    if lines == [] then LINE_END else lines[0] + LINE_END + WriteHead(lines[1..])
  }

  function HeadLines(status: nat, reason: Bytes, name: Bytes, extra: seq<Bytes>, body: Bytes): seq<Bytes> {
    [StatusLine(status, reason)] + extra + [LengthLine(name, |body|)]
  }

  function Write(status: nat, reason: Bytes, name: Bytes, extra: seq<Bytes>, body: Bytes): Bytes {
    WriteHead(HeadLines(status, reason, name, extra, body)) + body
  }

  /** Equal but for the case of letters. */
  predicate SameName(a: Bytes, b: Bytes) {
    |a| == |b| && forall i | 0 <= i < |a| :: SameLetter(a[i], b[i])
  }

  predicate SameLetter(a: byte, b: byte) {
    || a == b
    || (65 <= a <= 90 && b as int == a as int + 32)
    || (65 <= b <= 90 && a as int == b as int + 32)
  }

  /** Lowering two names makes them equal exactly when they are equal but for case. */
  lemma LowerIgnoresCase(a: Bytes, b: Bytes)
    ensures Lower(a) == Lower(b) <==> SameName(a, b)
  {
    if Lower(a) == Lower(b) {
      forall i | 0 <= i < |a| ensures SameLetter(a[i], b[i]) {
        assert Lower(a)[i] == Lower(b)[i];
      }
    }
  }

  // ----- Where the header ends -----

  /** The first CRLF CRLF. */
  function FindBlank(s: Bytes): (r: Option<nat>)
    ensures r.Some? ==> r.value + 4 <= |s| && s[r.value..r.value + 4] == BLANK
  {
    if |s| < 4 then None
    else if s[..4] == BLANK then Some(0)
    else match FindBlank(s[1..]) case None => None case Some(i) => Some(i + 1)
  }

  lemma {:induction false} FirstBlank(s: Bytes, k: nat)
    requires k + 4 <= |s| && s[k..k + 4] == BLANK
    ensures FindBlank(s).Some? && FindBlank(s).value <= k
  {
    if s[..4] != BLANK {
      assert s[1..][k - 1..k + 3] == s[k..k + 4];
      FirstBlank(s[1..], k - 1);
    }
  }

  /** A header ends with the first blank line. */
  lemma BlankEndsHead(s: Bytes)
    requires FindBlank(s).Some?
    ensures HeadLength(s, 0) == Some(FindBlank(s).value + 4)
  {
    hide Terminated, FindBlank;
    var i := FindBlank(s).value;
    TerminatedAt(s, i + 4);
    var n := HeadLength(s, 0).value;
    TerminatedAt(s, n);
    FirstBlank(s, n - 4);
  }

  lemma TerminatedAt(s: Bytes, n: nat)
    requires n <= |s|
    ensures Terminated(s[..n]) <==> n >= 4 && s[n - 4..n] == BLANK
  {
    if n >= 4 {
      assert s[..n][n - 4..] == s[n - 4..n];
    }
  }

  lemma {:induction false} BlankAfterLine(line: Bytes, rest: Bytes)
    requires CR !in line && FindBlank(rest).Some?
    ensures FindBlank(line + rest) == Some(|line| + FindBlank(rest).value)
  {
    hide *;
    if line == [] {
      assert line + rest == rest;
    } else {
      Peel(line, rest);
      BlankLater(line + rest);
      BlankAfterLine(line[1..], rest);
    }
  }

  lemma Peel(line: Bytes, rest: Bytes)
    requires line != [] && CR !in line
    ensures (line + rest)[0] == line[0] != CR && (line + rest)[1..] == line[1..] + rest && CR !in line[1..]
  {
  }

  lemma BlankLater(s: Bytes)
    requires |s| > 0 && s[0] != CR
    ensures FindBlank(s[1..]).Some? ==> FindBlank(s) == Some(1 + FindBlank(s[1..]).value)
  {
    if |s| >= 4 {
      NotBlankStart(s[..4]);
    }
  }

  lemma NotBlankStart(s: Bytes)
    requires |s| == 4 && s[0] != CR
    ensures s != BLANK
  {
    assert BLANK[0] == CR;
  }

  /** A line end before a further line is no blank line. */
  lemma BlankAfterLineEnd(rest: Bytes)
    requires FindBlank(rest).Some? && rest[0] != CR
    ensures FindBlank(LINE_END + rest) == Some(2 + FindBlank(rest).value)
  {
    hide *;
    var s := LINE_END + rest;
    AfterReturn(rest);
    BlankAfterLine([LF], rest);
    NotBlank(s, rest);
  }

  lemma AfterReturn(rest: Bytes)
    ensures (LINE_END + rest)[1..] == [LF] + rest && CR !in [LF]
  {
  }

  lemma NotBlank(s: Bytes, rest: Bytes)
    requires s == LINE_END + rest && |rest| > 0 && rest[0] != CR
    ensures FindBlank(s[1..]).Some? ==> FindBlank(s) == Some(1 + FindBlank(s[1..]).value)
  {
    if |s| >= 4 {
      assert s[..4][2] == rest[0] && BLANK[2] == CR;
    }
  }

  lemma {:induction false} BlankOfHead(lines: seq<Bytes>, body: Bytes)
    requires lines != [] && forall i | 0 <= i < |lines| :: Plain(lines[i])
    ensures var s := WriteHead(lines); |s| >= 4 && s[0] != CR && FindBlank(s + body) == Some(|s| - 4)
  {
    hide *;
    var line, rest := lines[0], WriteHead(lines[1..]);
    WriteHeadIs(lines);
    PlainStart(line);
    Regroup(line, rest, body, WriteHead(lines));
    if |lines| == 1 {
      BlankAtEnd(body);
    } else {
      BlankOfHead(lines[1..], body);
      StartOf(rest, body);
      BlankAfterLineEnd(rest + body);
    }
    BlankAfterLine(line, LINE_END + (rest + body));
  }

  lemma Regroup(line: Bytes, rest: Bytes, body: Bytes, head: Bytes)
    requires head == line + LINE_END + rest && line != []
    ensures head + body == line + (LINE_END + (rest + body))
    ensures |head| == |line| + 2 + |rest| && head[0] == line[0]
  {
  }

  lemma StartOf(rest: Bytes, body: Bytes)
    requires rest != []
    ensures (rest + body)[0] == rest[0]
  {
  }

  lemma PlainStart(line: Bytes)
    requires Plain(line)
    ensures line != [] && line[0] != CR && CR !in line
  {
  }

  lemma WriteHeadIs(lines: seq<Bytes>)
    requires lines != []
    ensures WriteHead(lines) == lines[0] + LINE_END + WriteHead(lines[1..])
    ensures |lines| == 1 ==> WriteHead(lines[1..]) == LINE_END && |LINE_END| == 2
  {
  }

  lemma BlankAtEnd(body: Bytes)
    ensures FindBlank(LINE_END + (LINE_END + body)) == Some(0)
  {
    assert (LINE_END + (LINE_END + body))[..4] == BLANK;
  }

  // ----- Splitting the header into its lines -----

  lemma {:induction false} LineEndAfter(line: Bytes, rest: Bytes)
    requires CR !in line
    ensures LineEnd(line + LINE_END + rest) == Some(|line|)
  {
    var s := line + LINE_END + rest;
    if line == [] {
      assert s[0] == CR && s[1] == LF;
    } else {
      assert s[0] == line[0];
      assert s[1..] == line[1..] + LINE_END + rest;
      LineEndAfter(line[1..], rest);
    }
  }

  lemma OneLine(line: Bytes, rest: Bytes)
    requires CR !in line
    ensures Lines(line + LINE_END + rest) == [line] + Lines(rest)
  {
    LineEndAfter(line, rest);
    var s := line + LINE_END + rest;
    assert s[..|line|] == line && s[|line| + 2..] == rest;
  }

  lemma {:induction false} LinesOfHead(lines: seq<Bytes>)
    requires forall i | 0 <= i < |lines| :: Plain(lines[i])
    ensures Lines(WriteHead(lines)) == lines + [[], []]
  {
    if lines == [] {
      NoLines();
    } else {
      hide *;
      LinesOfHead(lines[1..]);
      WriteHeadIs(lines);
      PlainStart(lines[0]);
      OneLine(lines[0], WriteHead(lines[1..]));
      assert [lines[0]] + (lines[1..] + [[], []]) == lines + [[], []];
    }
  }

  lemma NoLines()
    ensures Lines(WriteHead([])) == [[], []]
  {
    assert [] + LINE_END + [] == LINE_END;
    OneLine([], []);
    assert Lines([]) == [[]];
  }

  lemma EmptyLinesAddNothing(lines: seq<Bytes>)
    ensures Headers(lines + [[], []]) == Headers(lines)
  {
    var longer := lines + [[], []];
    assert longer[..|longer| - 1] == lines + [[]];
    assert (lines + [[]])[..|lines|] == lines;
    assert IndexOf([], COLON) == None;
  }

  // ----- Numbers -----

  lemma {:induction false} DecimalReads(n: nat)
    ensures Digits(Decimal(n)) == Some(n)
  {
    var s := Decimal(n);
    if n < 10 {
      assert s[..|s| - 1] == [];
    } else {
      DecimalReads(n / 10);
      assert s[..|s| - 1] == Decimal(n / 10);
    }
  }

  lemma NumberReads(n: nat, most: nat)
    requires n <= most
    ensures ParseNumber(Decimal(n), most) == Some(n)
  {
    DecimalReads(n);
    assert IsDigit(Decimal(n)[0]);
  }

  // ----- The status line -----

  lemma {:induction false} FirstWordIs(word: Bytes, rest: Bytes)
    requires forall i | 0 <= i < |word| :: !IsSpace(word[i])
    requires rest == [] || IsSpace(rest[0])
    ensures FirstWord(word + rest) == word
  {
    if word == [] {
      assert word + rest == rest;
    } else {
      assert (word + rest)[1..] == word[1..] + rest;
      FirstWordIs(word[1..], rest);
    }
  }

  lemma StatusReads(status: nat, reason: Bytes)
    ensures SecondWord(StatusLine(status, reason)) == Some(Decimal(status))
  {
    var code := Decimal(status);
    var tail := [SPACE] + reason;
    var rest := [SPACE] + (code + tail);
    var line := VERSION + rest;
    assert StatusLine(status, reason) == line;
    assert TrimLeft(line) == line;
    FirstWordIs(VERSION, rest);
    assert line[|VERSION|..] == rest;
    assert rest[1..] == code + tail && IsDigit(code[0]) && TrimLeft(code + tail) == code + tail;
    assert TrimLeft(rest) == code + tail;
    FirstWordIs(code, tail);
  }

  // ----- The length line -----

  lemma {:induction false} ColonAfter(name: Bytes, rest: Bytes)
    requires COLON !in name
    ensures IndexOf(name + [COLON] + rest, COLON) == Some(|name|)
  {
    var s := name + [COLON] + rest;
    if name != [] {
      assert s[0] == name[0] && s[1..] == name[1..] + [COLON] + rest;
      ColonAfter(name[1..], rest);
    }
  }

  lemma NoTrimming(s: Bytes)
    requires s != [] && !IsSpace(s[0]) && !IsSpace(s[|s| - 1])
    ensures Trim(s) == s && Trim([SPACE] + s) == s
  {
    assert ([SPACE] + s)[1..] == s;
  }

  lemma LengthReads(name: Bytes, extra: seq<Bytes>, length: nat)
    requires SameName(name, LENGTH_NAME)
    ensures Headers(extra + [LengthLine(name, length)]) == Headers(extra)[CONTENT_LENGTH := Decimal(length)]
  {
    var digits := Decimal(length);
    assert IsDigit(digits[0]) && IsDigit(digits[|digits| - 1]);
    hide Trim, Lower, IndexOf, Decimal, LengthLine, Headers;
    LengthLineParts(name, length);
    NameIsPlain(name);
    ColonAfter(name, [SPACE] + digits);
    NoTrimming(name);
    NoTrimming(digits);
    LastHeader(extra, LengthLine(name, length), |name|);
  }

  lemma LengthLineParts(name: Bytes, length: nat)
    ensures var line, digits := LengthLine(name, length), Decimal(length);
      && line == name + [COLON] + ([SPACE] + digits)
      && line[..|name|] == name && line[|name| + 1..] == [SPACE] + digits
  {
    hide Decimal;
  }

  /** The name of the length header, in any case. */
  lemma NameIsPlain(name: Bytes)
    requires SameName(name, LENGTH_NAME)
    ensures name != [] && !IsSpace(name[0]) && !IsSpace(name[|name| - 1])
    ensures COLON !in name && CR !in name && LF !in name
    ensures Lower(name) == CONTENT_LENGTH
  {
    LowerIgnoresCase(name, LENGTH_NAME);
    assert Lower(LENGTH_NAME) == CONTENT_LENGTH;
    forall i | 0 <= i < |name| ensures name[i] != COLON && name[i] != CR && name[i] != LF && !IsSpace(name[i]) {
      assert Lower(name)[i] == CONTENT_LENGTH[i];
    }
  }

  lemma LastHeader(lines: seq<Bytes>, line: Bytes, colon: nat)
    requires IndexOf(line, COLON) == Some(colon)
    ensures Headers(lines + [line]) == Headers(lines)[Lower(Trim(line[..colon])) := Trim(line[colon + 1..])]
  {
    hide Trim, Lower, IndexOf;
    assert (lines + [line])[..|lines|] == lines;
  }

  // ----- The round trip -----

  /** Any status, reason, extra header lines and body within the limits read back as written, however the name of
      the length header is spelled. */
  lemma WrittenReadsBack(status: nat, reason: Bytes, name: Bytes, extra: seq<Bytes>, body: Bytes)
    requires status <= MAX_U16 && CR !in reason && LF !in reason && forall i | 0 <= i < |extra| :: Plain(extra[i])
    requires SameName(name, LENGTH_NAME)
    requires |body| <= MAX_BODY_BYTES && |WriteHead(HeadLines(status, reason, name, extra, body))| <= MAX_HEAD_BYTES
    ensures Encodes(Write(status, reason, name, extra, body),
                    Response(status, Headers(extra)[CONTENT_LENGTH := Decimal(|body|)], body))
  {
    var lines := HeadLines(status, reason, name, extra, body);
    var head := WriteHead(lines);
    var s := head + body;
    LinesArePlain(status, reason, name, extra, body);
    BlankOfHead(lines, body);
    BlankEndsHead(s);
    HeadParses(status, reason, name, extra, body);
    hide ParseHead, HeadLength, WriteHead, HeadLines, Headers, Decimal, FindBlank;
    WholeResponse(head, body, Head(status, Headers(extra)[CONTENT_LENGTH := Decimal(|body|)], |body|));
  }

  lemma WholeResponse(head: Bytes, body: Bytes, parsed: Head)
    requires HeadLength(head + body, 0) == Some(|head|) && |head| <= MAX_HEAD_BYTES && |body| <= MAX_BODY_BYTES
    requires ParseHead(head) == Ok(parsed) && parsed.contentLength == |body|
    ensures Encodes(head + body, Response(parsed.status, parsed.headers, body))
  {
    hide ParseHead, HeadLength;
    var s, n := head + body, |head|;
    assert s[..n] == head && s[n..n + |body|] == body && s[n + |body|..] == [];
  }

  lemma LinesArePlain(status: nat, reason: Bytes, name: Bytes, extra: seq<Bytes>, body: Bytes)
    requires CR !in reason && LF !in reason && forall i | 0 <= i < |extra| :: Plain(extra[i])
    requires SameName(name, LENGTH_NAME)
    ensures var lines := HeadLines(status, reason, name, extra, body); forall i | 0 <= i < |lines| :: Plain(lines[i])
  {
    DigitsArePlain(status);
    DigitsArePlain(|body|);
    NameIsPlain(name);
    assert Plain(StatusLine(status, reason)) && Plain(LengthLine(name, |body|));
  }

  lemma DigitsArePlain(n: nat)
    ensures CR !in Decimal(n) && LF !in Decimal(n)
  {
    assert forall i | 0 <= i < |Decimal(n)| :: IsDigit(Decimal(n)[i]);
  }

  lemma HeadParses(status: nat, reason: Bytes, name: Bytes, extra: seq<Bytes>, body: Bytes)
    requires status <= MAX_U16 && |body| <= MAX_BODY_BYTES && SameName(name, LENGTH_NAME)
    requires var lines := HeadLines(status, reason, name, extra, body); forall i | 0 <= i < |lines| :: Plain(lines[i])
    ensures ParseHead(WriteHead(HeadLines(status, reason, name, extra, body))) ==
            Ok(Head(status, Headers(extra)[CONTENT_LENGTH := Decimal(|body|)], |body|))
  {
    var lines := HeadLines(status, reason, name, extra, body);
    var fields := extra + [LengthLine(name, |body|)];
    LinesOfHead(lines);
    assert (lines + [[], []])[1..] == fields + [[], []];
    hide Lines, WriteHead, Headers, SecondWord, ParseNumber, LengthLine, StatusLine, Decimal;
    StatusReads(status, reason);
    NumberReads(status, MAX_U16);
    EmptyLinesAddNothing(fields);
    LengthReads(name, extra, |body|);
    NumberReads(|body|, U64_MAX);
  }

  // ----- Header fields -----

  datatype Field = Field(name: Bytes, value: Bytes)

  predicate Tidy(s: Bytes) {
    s != [] ==> !IsSpace(s[0]) && !IsSpace(s[|s| - 1])
  }

  predicate Proper(f: Field) {
    f.name != [] && Tidy(f.name) && Tidy(f.value) && COLON !in f.name
  }

  function FieldLine(f: Field): Bytes {
    f.name + [COLON] + ([SPACE] + f.value)
  }

  function FieldLines(fields: seq<Field>): (r: seq<Bytes>)
    ensures |r| == |fields|
  {
    seq(|fields|, i requires 0 <= i < |fields| => FieldLine(fields[i]))
  }

  lemma FieldIsRead(lines: seq<Bytes>, f: Field)
    requires Proper(f)
    ensures Headers(lines + [FieldLine(f)]) == Headers(lines)[Lower(f.name) := f.value]
  {
    var line := FieldLine(f);
    ColonAfter(f.name, [SPACE] + f.value);
    assert line[..|f.name|] == f.name && line[|f.name| + 1..] == [SPACE] + f.value;
    NoTrimming(f.name);
    if f.value == [] {
      var space := [SPACE];
      assert [SPACE] + f.value == space && space[1..] == [];
      assert TrimLeft(space) == TrimLeft([]) == [] && TrimRight([]) == [];
    } else {
      NoTrimming(f.value);
    }
    LastHeader(lines, line, |f.name|);
  }

  /** The last field of each name, in whatever case, is the one that is read, without the white space around it. */
  lemma {:induction false} FieldsAreRead(fields: seq<Field>, k: nat)
    requires (forall i | 0 <= i < |fields| :: Proper(fields[i])) && k < |fields|
    requires forall i | k < i < |fields| :: !SameName(fields[i].name, fields[k].name)
    ensures var headers := Headers(FieldLines(fields));
      Lower(fields[k].name) in headers && headers[Lower(fields[k].name)] == fields[k].value
  {
    var n := |fields| - 1;
    hide Headers, Lower, Proper, SameName, FieldLine;
    assert FieldLines(fields) == FieldLines(fields[..n]) + [FieldLine(fields[n])];
    FieldIsRead(FieldLines(fields[..n]), fields[n]);
    if k < n {
      LowerIgnoresCase(fields[n].name, fields[k].name);
      FieldsAreRead(fields[..n], k);
    }
  }

  /** A written response reads back with its status, its body and the last field of each name. */
  lemma FieldsReadBack(status: nat, reason: Bytes, name: Bytes, fields: seq<Field>, body: Bytes, k: nat)
    returns (response: Response)
    requires (forall i | 0 <= i < |fields| :: Proper(fields[i]) && Plain(FieldLine(fields[i]))) && k < |fields|
    requires forall i | k < i < |fields| :: !SameName(fields[i].name, fields[k].name)
    requires SameName(name, LENGTH_NAME) && !SameName(fields[k].name, LENGTH_NAME)
    requires status <= MAX_U16 && CR !in reason && LF !in reason && |body| <= MAX_BODY_BYTES
    requires |WriteHead(HeadLines(status, reason, name, FieldLines(fields), body))| <= MAX_HEAD_BYTES
    ensures Encodes(Write(status, reason, name, FieldLines(fields), body), response)
    ensures response.status == status && response.body == body
    ensures Lower(fields[k].name) in response.headers && response.headers[Lower(fields[k].name)] == fields[k].value
  {
    hide Headers, Lower, Proper, SameName, FieldLine, Encodes, WriteHead, HeadLines, Write, Decimal;
    var extra := FieldLines(fields);
    WrittenReadsBack(status, reason, name, extra, body);
    FieldsAreRead(fields, k);
    LowerIgnoresCase(fields[k].name, LENGTH_NAME);
    NameIsPlain(name);
    LowerIgnoresCase(name, LENGTH_NAME);
    response := Response(status, Headers(extra)[CONTENT_LENGTH := Decimal(|body|)], body);
  }
}
