/** HttpRequestExtractor: turns the packets of a connection into one New Request, Body Data and Request Ended
    packets. What it sends must depend on the bytes of the connection only, not on how they were cut into packets.

    The pushed packets are recorded in a field. mBodyLength is never assigned anything but SIZE_MAX, so the branches
    that compare with it, and mSentBodyDataByteCount, which only they read, are not part of this model. */
module HttpRequestExtractors {
  import opened Totals
  import opened FlatBytes
  import opened MemoryStreams

  const CR_LF: bytes := [13, 10]
  const DOUBLE_CR_LF: bytes := [13, 10, 13, 10]
  const COLON: bytes := [58]
  const SPACE: bytes := [32]
  const CONTENT_LENGTH: bytes := [99, 111, 110, 116, 101, 110, 116, 45, 108, 101, 110, 103, 116, 104]

  type Headers = map<bytes, bytes>

  datatype Request = Request(httpMethod: Option<bytes>, path: Option<bytes>, version: Option<bytes>, headers: Headers)

  datatype Pushed =
    | NewRequest(id: nat, request: Request)
    | BodyData(id: nat, buffer: Buffer)
    | RequestEnded(id: nat)
    | Error

  // ---- What the header block means ----

  function ToLower(s: bytes): (r: bytes)
    ensures |r| == |s|
  {
    if s == [] then [] else ToLower(s[..|s| - 1]) + [LowerByte(s[|s| - 1])]
  }

  function LowerByte(b: byte): byte {
    if 65 <= b <= 90 then b + 32 else b
  }

  function Trimmed(s: bytes): bytes {
    TrimEnd(TrimStart(s, WHITESPACE), WHITESPACE)
  }

  function Key(line: bytes): bytes {
    ToLower(Trimmed(Fragments(line, COLON, 2)[0]))
  }

  function Value(line: bytes): bytes {
    var parts := Fragments(line, COLON, 2);
    if |parts| > 1 then Trimmed(parts[1]) else []
  }

  function HeaderMap(lines: seq<bytes>): Headers {
    if lines == [] then map[] else HeaderMap(lines[..|lines| - 1])[Key(lines[|lines| - 1]) := Value(lines[|lines| - 1])]
  }

  lemma HeaderMapNext(lines: seq<bytes>, i: nat)
    requires i < |lines|
    ensures HeaderMap(lines[..i + 1]) == HeaderMap(lines[..i])[Key(lines[i]) := Value(lines[i])]
  {
    assert lines[..i + 1][..i] == lines[..i];
  }

  function Part(parts: seq<bytes>, i: nat): Option<bytes> {
    if i < |parts| then Some(parts[i]) else None
  }

  // What is kept of the lines after the first: the last one.
  function HeaderLine(lines: seq<bytes>): bytes {
    if |lines| > 1 then lines[|lines| - 1] else []
  }

  function RequestOf(block: bytes): Request {
    var lines := Fragments(block, CR_LF, 0);
    var parts := Fragments(lines[0], SPACE, 0);
    Request(Part(parts, 0), Part(parts, 1), Part(parts, 2), HeaderMap(Fragments(HeaderLine(lines), CR_LF, 0)))
  }

  /** The request a header block stands for; None when handling it throws. */
  function ParseRequest(block: bytes): Option<Request> {
    var request := RequestOf(block);
    if CONTENT_LENGTH in request.headers then None else Some(request)
  }

  /** A header block is turned down exactly when its last line is a Content-Length line below the request line: the
      value is a string and is read as an integer. Whatever the other lines say, only the last is looked at. */
  lemma ParsesIffNoContentLength(block: bytes)
    ensures var lines := Fragments(block, CR_LF, 0);
      && (ParseRequest(block).None? <==> |lines| > 1 && Key(lines[|lines| - 1]) == CONTENT_LENGTH)
      && (ParseRequest(block).Some? ==>
            ParseRequest(block).value.headers == map[Key(HeaderLine(lines)) := Value(HeaderLine(lines))])
  {
    var lines := Fragments(block, CR_LF, 0);
    var line := HeaderLine(lines);
    if |lines| > 1 {
      FragmentsSeparatorFree(block, CR_LF, 0, |lines| - 1);
    } else {
      EmptyKey();
    }
    FirstMatchLeast(line, CR_LF, 0, |line|);
    FirstMatchNone(line, CR_LF, 0, |line|);
    assert Fragments(line, CR_LF, 0) == [line];
    OneHeader(line);
  }

  lemma OneHeader(line: bytes)
    ensures HeaderMap([line]) == map[Key(line) := Value(line)]
  {
    assert [line][..0] == [];
  }

  lemma EmptyKey()
    ensures Key([]) == [] != CONTENT_LENGTH && !Contains([], CR_LF)
  {
    assert Fragments([], COLON, 2) == [[]];
  }

  // For example: a Content-Length line below any request line.
  lemma ContentLengthRefused(requestLine: bytes, line: bytes)
    requires !Contains(requestLine, CR_LF) && !Contains(line, CR_LF) && Key(line) == CONTENT_LENGTH
    ensures ParseRequest(Join([requestLine, line], CR_LF)).None?
  {
    var lines := [requestLine, line];
    CrLfBorderless();
    FragmentsJoin(lines, CR_LF);
    ParsesIffNoContentLength(Join(lines, CR_LF));
  }

  lemma ContentLengthIsSuchALine()
    ensures !Contains(CONTENT_LENGTH, CR_LF) && Key(CONTENT_LENGTH) == CONTENT_LENGTH
  {
    NoMatchWithoutByte(CONTENT_LENGTH, CR_LF);
    PlainKey(CONTENT_LENGTH);
  }

  // A line of neither colons, nor blanks, nor upper-case letters is its own key.
  lemma PlainKey(line: bytes)
    requires COLON[0] !in line && forall k :: 0 <= k < |line| ==> line[k] !in WHITESPACE && !(65 <= line[k] <= 90)
    ensures Key(line) == line
  {
    NoMatchWithoutByte(line, COLON);
    FirstMatchNone(line, COLON, 0, |line|);
    FragmentsLast(line, COLON, 2, 0);
    assert line[0..] == line;
    TrimStartIs(line, WHITESPACE, 0);
    TrimEndIs(line, WHITESPACE, |line|);
    LowerAlready(line);
  }

  lemma CrLfBorderless()
    ensures Borderless(CR_LF)
  {
    assert CR_LF[..1][0] != CR_LF[1..][0];
  }

  lemma {:induction false} LowerAlready(s: bytes)
    requires forall k :: 0 <= k < |s| ==> !(65 <= s[k] <= 90)
    ensures ToLower(s) == s
  {
    if s != [] {
      LowerAlready(s[..|s| - 1]);
    }
  }

  // ---- What a request says, byte by byte ----

  // Letters 65 to 90 become 97 to 122, every other byte stays.
  predicate LowerOf(s: bytes, lower: bytes) {
    && |lower| == |s|
    && forall k :: 0 <= k < |s| ==> lower[k] as int == s[k] as int + if 65 <= s[k] <= 90 then 32 else 0
  }

  lemma {:induction false} ToLowerExactly(s: bytes, lower: bytes)
    ensures lower == ToLower(s) <==> LowerOf(s, lower)
  {
    ToLowerIs(s);
    if LowerOf(s, lower) {
      assert forall k :: 0 <= k < |s| ==> lower[k] == ToLower(s)[k];
    }
  }

  lemma {:induction false} ToLowerIs(s: bytes)
    ensures LowerOf(s, ToLower(s))
  {
    if s != [] {
      ToLowerIs(s[..|s| - 1]);
    }
  }

  // The first colon of a line ends its name.
  lemma NameAndValue(name: bytes, value: bytes)
    requires 58 !in name
    ensures Fragments(name + [58] + value, [58], 2) == [name, value]
  {
    var line := name + [58] + value;
    forall k: nat | k < |name|
      ensures !MatchAt(line, [58], k)
    {
      MatchByte(line, 58, k);
      assert line[k] == name[k];
    }
    MatchByte(line, 58, |name|);
    FirstMatchIs(line, [58], 0, |line|, |name|);
    FragmentsCut(line, [58], 2, |name|);
    assert line[..|name|] == name && line[|name| + 1..] == value;
  }

  /** The header of a line `name:value`: the key is the name, trimmed and in lower case, the value is what follows the
      first colon, trimmed. */
  lemma HeaderOfLine(name: bytes, value: bytes) returns (trimmed: bytes)
    requires 58 !in name
    ensures TrimsTo(name, trimmed) && LowerOf(trimmed, Key(name + [58] + value))
    ensures TrimsTo(value, Value(name + [58] + value))
  {
    NameAndValue(name, value);
    trimmed := Trimmed(name);
    MemoryStream.TrimsWhiteSpace(name, trimmed);
    MemoryStream.TrimsWhiteSpace(value, Trimmed(value));
    ToLowerIs(trimmed);
  }

  // A line without a colon is all name.
  lemma HeaderWithoutColon(line: bytes) returns (trimmed: bytes)
    requires 58 !in line
    ensures TrimsTo(line, trimmed) && LowerOf(trimmed, Key(line)) && Value(line) == []
  {
    NoMatchWithoutByte(line, COLON);
    FirstMatchNone(line, COLON, 0, |line|);
    FragmentsLast(line, COLON, 2, 0);
    assert line[0..] == line;
    trimmed := Trimmed(line);
    MemoryStream.TrimsWhiteSpace(line, trimmed);
    ToLowerIs(trimmed);
  }

  lemma ByteBorderless(b: byte)
    ensures Borderless([b])
  {
  }

  lemma ByteNotContained(s: bytes, b: byte)
    requires b !in s
    ensures !Contains(s, [b])
  {
    NoMatchWithoutByte(s, [b]);
  }

  /** A header block that joins the request line, its parts separated by single blanks (32), and header lines with CR LF
      (13, 10): the request has these parts as method, path and version, as far as there are, and the last header line's
      header. */
  lemma RequestOfParts(parts: seq<bytes>, lines: seq<bytes>)
    requires parts != [] && (forall k :: 0 <= k < |parts| ==> 32 !in parts[k]) && !Contains(Join(parts, [32]), [13, 10])
    requires lines != [] && forall k :: 0 <= k < |lines| ==> !Contains(lines[k], [13, 10])
    ensures RequestOf(Join([Join(parts, [32])] + lines, [13, 10]))
         == Request(Part(parts, 0), Part(parts, 1), Part(parts, 2),
                    map[Key(lines[|lines| - 1]) := Value(lines[|lines| - 1])])
  {
    var all, last := [Join(parts, [32])] + lines, lines[|lines| - 1];
    CrLfBorderless();
    FragmentsJoin(all, CR_LF);
    ByteBorderless(32);
    forall k | 0 <= k < |parts| ensures !Contains(parts[k], [32]) { ByteNotContained(parts[k], 32); }
    FragmentsJoin(parts, SPACE);
    FirstMatchLeast(last, CR_LF, 0, |last|);
    FirstMatchNone(last, CR_LF, 0, |last|);
    assert Fragments(last, CR_LF, 0) == [last];
    OneHeader(last);
  }

  lemma JoinThree(a: bytes, b: bytes, c: bytes, separator: bytes)
    ensures Join([a, b, c], separator) == a + separator + b + separator + c
  {
    JoinTwo(b, c, separator);
    assert [a, b, c][1..] == [b, c];
    assert a + separator + (b + separator + c) == a + separator + b + separator + c;
  }

  lemma JoinTwo(a: bytes, b: bytes, separator: bytes)
    ensures Join([a, b], separator) == a + separator + b
  {
    assert [a, b][1..] == [b];
  }

  /** Byte for byte: `method path version`, CR LF and `name:value` is the request with that method, path and version,
      and with exactly one header, the name trimmed and in lower case with the value trimmed. */
  lemma RequestSpelledOut(httpMethod: bytes, path: bytes, version: bytes, name: bytes, value: bytes)
    returns (trimmed: bytes, key: bytes, text: bytes)
    requires 32 !in httpMethod && 32 !in path && 32 !in version && 58 !in name
    requires !Contains(httpMethod + [32] + path + [32] + version, [13, 10]) && !Contains(name + [58] + value, [13, 10])
    ensures TrimsTo(name, trimmed) && LowerOf(trimmed, key) && TrimsTo(value, text)
    ensures RequestOf(httpMethod + [32] + path + [32] + version + [13, 10] + (name + [58] + value))
         == Request(Some(httpMethod), Some(path), Some(version), map[key := text])
  {
    var parts, line := [httpMethod, path, version], name + [58] + value;
    trimmed := HeaderOfLine(name, value);
    key, text := Key(line), Value(line);
    JoinThree(httpMethod, path, version, [32]);
    JoinTwo(Join(parts, [32]), line, [13, 10]);
    RequestOfParts(parts, [line]);
    assert [Join(parts, [32])] + [line] == [Join(parts, [32]), line];
  }

  // ---- One packet ----

  // The header parser; all that is proved of whole connections holds for every one of them.
  type Parser = bytes -> Option<Request>

  datatype State = State(id: nat, buffered: bytes, sent: bool)

  function BlankLine(flat: bytes): Option<nat> {
    FirstMatch(flat, DOUBLE_CR_LF, 0, |flat|)
  }

  // What is sent for the bytes of a connection up to the packet that completes the headers.
  function Opening(id: nat, request: Request, flat: bytes, end: nat): seq<Pushed>
    requires end + |DOUBLE_CR_LF| <= |flat|
  {
    var body := flat[end + |DOUBLE_CR_LF|..];
    [NewRequest(id, request)] + if body == [] then [] else [BodyData(id, Buffer.Buffer(body))]
  }

  function With(buffered: bytes, buffer: Buffer): bytes {
    if buffer.Buffer? then buffered + buffer.bytes else buffered
  }

  function Step(parse: Parser, s: State, buffer: Buffer): (State, seq<Pushed>) {
    if s.sent then (s, [BodyData(s.id, buffer)])
    else if buffer.Unbacked? && buffer.length > 0 then (s, [Error])
    else
      LookForHeaders(parse, s.id, With(s.buffered, buffer))
  }

  // The state and packets once flat has been buffered.
  function LookForHeaders(parse: Parser, id: nat, flat: bytes): (State, seq<Pushed>) {
    match BlankLine(flat)
    case None => (State(id, flat, false), [])
    case Some(end) =>
      match parse(flat[..end])
      case None => (State(id, flat, false), [Error])
      case Some(request) => (State(id, [], true), Opening(id, request, flat, end))
  }

  // Between packets a blank line is in the buffer only if its header block is turned down.
  ghost predicate Consistent(parse: Parser, s: State) {
    && (s.sent ==> s.buffered == [])
    && var end := BlankLine(s.buffered); end.Some? ==> parse(s.buffered[..end.value]).None?
  }

  // The packet that completes the headers also brings the first byte after them: subtracting the size before it from
  // the body's start never wraps, and its tail is the body so far.
  lemma BodyInLastBuffer(parse: Parser, before: bytes, last: bytes, end: nat)
    requires BlankLine(before + last) == Some(end) && parse((before + last)[..end]).Some?
    requires var earlier := BlankLine(before); earlier.Some? ==> parse(before[..earlier.value]).None?
    ensures |before| < end + |DOUBLE_CR_LF| <= |before + last|
    ensures (before + last)[end + |DOUBLE_CR_LF|..] == last[end + |DOUBLE_CR_LF| - |before|..]
  {
    FirstMatchGrows(before, last, DOUBLE_CR_LF);
    if BlankLine(before).Some? {
      SameBlock(before, last);
    }
  }

  // The bytes after the blank line at end are the tail of the packet's buffer, of which sizeBefore bytes came earlier.
  ghost predicate BodyInBuffer(flat: bytes, sizeBefore: nat, buffer: Buffer, end: nat) {
    && sizeBefore < end + |DOUBLE_CR_LF| <= |flat| == sizeBefore + buffer.Length()
    && (end + |DOUBLE_CR_LF| < |flat| ==>
          buffer.Buffer? && flat[end + |DOUBLE_CR_LF|..] == buffer.bytes[end + |DOUBLE_CR_LF| - sizeBefore..])
  }

  lemma BodyFollows(parse: Parser, before: bytes, buffer: Buffer, end: nat)
    requires buffer.Buffer? || buffer.length == 0
    requires BlankLine(With(before, buffer)) == Some(end) && parse(With(before, buffer)[..end]).Some?
    requires var earlier := BlankLine(before); earlier.Some? ==> parse(before[..earlier.value]).None?
    ensures BodyInBuffer(With(before, buffer), |before|, buffer, end)
  {
    BodyInLastBuffer(parse, before, if buffer.Buffer? then buffer.bytes else [], end);
    assert buffer.Unbacked? ==> before + [] == before;
  }

  lemma SameBlock(before: bytes, last: bytes)
    requires BlankLine(before).Some?
    ensures BlankLine(before + last) == BlankLine(before)
    ensures var end := BlankLine(before).value; (before + last)[..end] == before[..end]
  {
    FirstMatchGrows(before, last, DOUBLE_CR_LF);
  }

  // Bytes added after a refused header block leave it refused.
  lemma StillRefused(parse: Parser, s: State, buffer: Buffer)
    requires Consistent(parse, s)
    ensures Consistent(parse, Step(parse, s, buffer).0)
  {
    FirstMatchNone([], DOUBLE_CR_LF, 0, 0);
  }

  class HttpRequestExtractor {
    var sentHeaders: bool
    var headerData: MemoryStream
    const requestId: nat
    var pushed: seq<Pushed>

    ghost function Abstract(): State
      reads this, headerData
    {
      State(requestId, headerData.Flat(), sentHeaders)
    }

    ghost predicate Valid()
      reads this, headerData
    {
      headerData.Valid() && Consistent(ParseRequest, Abstract())
    }

    constructor (randomId: nat)
      ensures Valid() && fresh(headerData) && Abstract() == State(randomId, [], false) && pushed == []
    {
      sentHeaders, requestId, pushed := false, randomId, [];
      headerData := new MemoryStream();
    }

    /** buffer is the first buffer of the packet. The buffered bytes are in memory together with it. */
    method HandlePacket(buffer: Buffer)
      requires Valid() && headerData.size + buffer.Length() < SIZE_MAX - |DOUBLE_CR_LF|
      modifies this, headerData
      ensures Valid() && headerData == old(headerData)
      ensures Abstract() == Step(ParseRequest, old(Abstract()), buffer).0
      ensures pushed == old(pushed) + Step(ParseRequest, old(Abstract()), buffer).1
    {
      if sentHeaders {
        pushed := pushed + [BodyData(requestId, buffer)];
        return;
      }
      StillRefused(ParseRequest, Abstract(), buffer);
      var sizeBefore := headerData.size;
      ghost var before := headerData.Flat();
      var appended := headerData.Append(buffer);
      if !appended {
        pushed := pushed + [Error];
        return;
      }
      HandleBuffered(buffer, sizeBefore, before);
    }

    // The rest of handlePacket, once the packet's bytes have been buffered.
    method HandleBuffered(buffer: Buffer, sizeBefore: nat, ghost before: bytes)
      requires headerData.Valid() && headerData.size < SIZE_MAX - |DOUBLE_CR_LF|
               && (buffer.Buffer? || buffer.length == 0)
      requires headerData.Flat() == With(before, buffer) && |before| == sizeBefore
      requires !sentHeaders && Consistent(ParseRequest, Abstract().(buffered := before))
      modifies this, headerData
      ensures headerData == old(headerData) && headerData.Valid()
      ensures Abstract() == LookForHeaders(ParseRequest, requestId, old(headerData.Flat())).0
      ensures pushed == old(pushed) + LookForHeaders(ParseRequest, requestId, old(headerData.Flat())).1
    {
      var headersEnd := headerData.FirstIndexOf(DOUBLE_CR_LF, 0, SIZE_MAX);
      if headersEnd.None? {
        return;
      }
      var block := headerData.SubStream(0, headersEnd.value);
      assert block.Flat() == headerData.Flat()[..headersEnd.value];
      var request := CreateHeaderPacket(block);
      if CONTENT_LENGTH in request.headers {
        pushed := pushed + [Error];
        return;
      }
      BodyFollows(ParseRequest, before, buffer, headersEnd.value);
      SendRequest(request, buffer, headersEnd.value, sizeBefore);
    }

    // The rest of handlePacket, once the headers have been read.
    method SendRequest(request: Request, buffer: Buffer, headersEnd: nat, sizeBefore: nat)
      requires headerData.Valid() && buffer.Length() < SIZE_MAX
      requires BodyInBuffer(headerData.Flat(), sizeBefore, buffer, headersEnd)
      modifies this, headerData
      ensures headerData == old(headerData) && headerData.Valid() && headerData.Flat() == [] && sentHeaders
      ensures pushed == old(pushed) + Opening(requestId, request, old(headerData.Flat()), headersEnd)
    {
      pushed := pushed + [NewRequest(requestId, request)];
      sentHeaders := true;
      var bodyStart := headersEnd + |DOUBLE_CR_LF|;
      ghost var body := headerData.Flat()[bodyStart..];
      ghost var opening := Opening(requestId, request, headerData.Flat(), headersEnd);
      assert opening[0] == NewRequest(requestId, request);
      var availableBodyLength := headerData.size - bodyStart;
      if availableBodyLength > 0 {
        var offsetOfBodyInLastBuffer := bodyStart - sizeBefore;
        var bodyBuffer := buffer.Slice(offsetOfBodyInLastBuffer, SIZE_MAX);
        assert bodyBuffer.bytes == body && body != [];
        assert opening == [NewRequest(requestId, request), BodyData(requestId, bodyBuffer)];
        pushed := pushed + [BodyData(requestId, bodyBuffer)];
      }
      headerData.Clear();
    }

    // The destructor.
    method EndOfRequest()
      modifies this`pushed
      ensures pushed == old(pushed) + if sentHeaders then [RequestEnded(requestId)] else []
    {
      if sentHeaders {
        pushed := pushed + [RequestEnded(requestId)];
      }
    }

    static method CreateHeaderPacket(block: MemoryStream) returns (r: Request)
      requires block.Valid() && block.size < SIZE_MAX - |DOUBLE_CR_LF|
      ensures r == RequestOf(block.Flat())
    {
      ghost var allLines := Fragments(block.Flat(), CR_LF, 0);
      var lines := block.SplitAll(CR_LF);
      var firstLine := new MemoryStream();
      var headersStream := new MemoryStream();
      for index := 0 to |lines|
        invariant MemoryStream.Hold(lines, allLines)
        invariant firstLine.Valid() && headersStream.Valid()
        invariant index > 0 ==> firstLine.Flat() == allLines[0]
        invariant headersStream.Flat() == HeaderLine(allLines[..index])
      {
        if index == 0 {
          firstLine := lines[index];
        } else {
          headersStream := lines[index];
        }
      }
      assert allLines[..|lines|] == allLines;
      FragmentLength(block.Flat(), CR_LF, 0, 0);
      FragmentLength(block.Flat(), CR_LF, 0, |allLines| - 1);
      var headers := ParseHeaders(headersStream);
      r := RequestLine(firstLine, headers);
    }

    static method RequestLine(firstLine: MemoryStream, headers: Headers) returns (r: Request)
      requires firstLine.Valid() && firstLine.size < SIZE_MAX - |DOUBLE_CR_LF|
      ensures var parts := Fragments(firstLine.Flat(), SPACE, 0);
              r == Request(Part(parts, 0), Part(parts, 1), Part(parts, 2), headers)
    {
      ghost var parts := Fragments(firstLine.Flat(), SPACE, 0);
      var tokens := firstLine.SplitAll(SPACE);
      r := Request(None, None, None, headers);
      for index := 0 to |tokens|
        invariant MemoryStream.Hold(tokens, parts)
        invariant r == Request(Part(parts[..index], 0), Part(parts[..index], 1), Part(parts[..index], 2), headers)
      {
        var tokenString := tokens[index].AsString();
        match index
        case 0 => r := r.(httpMethod := Some(tokenString));
        case 1 => r := r.(path := Some(tokenString));
        case 2 => r := r.(version := Some(tokenString));
        case _ =>
      }
      assert parts[..|tokens|] == parts;
    }

    static method ParseHeaders(stream: MemoryStream) returns (headers: Headers)
      requires stream.Valid() && stream.size < SIZE_MAX - |DOUBLE_CR_LF|
      ensures headers == HeaderMap(Fragments(stream.Flat(), CR_LF, 0))
    {
      ghost var allLines := Fragments(stream.Flat(), CR_LF, 0);
      var lines := stream.SplitAll(CR_LF);
      headers := map[];
      for i := 0 to |lines|
        invariant MemoryStream.Hold(lines, allLines)
        invariant headers == HeaderMap(allLines[..i])
      {
        FragmentLength(stream.Flat(), CR_LF, 0, i);
        headers := AddHeader(headers, lines[i]);
        HeaderMapNext(allLines, i);
      }
      assert allLines[..|lines|] == allLines;
    }

    static method AddHeader(headers: Headers, line: MemoryStream) returns (more: Headers)
      requires line.Valid() && line.size < SIZE_MAX - |DOUBLE_CR_LF|
      ensures more == headers[Key(line.Flat()) := Value(line.Flat())]
    {
      var key, value := KeyAndValue(line);
      more := headers[key := value];
    }

    static method KeyAndValue(line: MemoryStream) returns (key: bytes, value: bytes)
      requires line.Valid() && line.size < SIZE_MAX - |DOUBLE_CR_LF|
      ensures key == Key(line.Flat()) && value == Value(line.Flat())
    {
      var tokens := line.Split(COLON, 2);
      var trimmed := tokens[0].Trim();
      var text := trimmed.AsString();
      key := LowerCase(text);
      value := [];
      if |tokens| > 1 {
        trimmed := tokens[1].Trim();
        value := trimmed.AsString();
      }
    }

    static method LowerCase(s: bytes) returns (lower: bytes)
      ensures lower == ToLower(s)
    {
      lower := [];
      for i := 0 to |s|
        invariant lower == ToLower(s[..i])
      {
        assert s[..i + 1][..i] == s[..i];
        lower := lower + [LowerByte(s[i])];
      }
      assert s[..|s|] == s;
    }
  }

  // ---- Whole connections ----

  function Joined(packets: seq<bytes>): bytes {
    if packets == [] then [] else Joined(packets[..|packets| - 1]) + packets[|packets| - 1]
  }

  function Run(parse: Parser, id: nat, packets: seq<bytes>): (State, seq<Pushed>) {
    if packets == [] then (State(id, [], false), [])
    else
      var (s, sent) := Run(parse, id, packets[..|packets| - 1]);
      var (next, more) := Step(parse, s, Buffer.Buffer(packets[|packets| - 1]));
      (next, sent + more)
  }

  // All that is sent for a connection: packet by packet, then by the destructor.
  function Connection(parse: Parser, id: nat, packets: seq<bytes>): seq<Pushed> {
    var (s, sent) := Run(parse, id, packets);
    sent + if s.sent then [RequestEnded(id)] else []
  }

  // The bytes carried by body packets.
  function Body(sent: seq<Pushed>): bytes {
    if sent == [] then []
    else
      var last := sent[|sent| - 1];
      Body(sent[..|sent| - 1]) + if last.BodyData? && last.buffer.Buffer? then last.buffer.bytes else []
  }

  ghost predicate AllBody(id: nat, sent: seq<Pushed>) {
    forall k :: 0 <= k < |sent| ==> sent[k].BodyData? && sent[k].id == id && sent[k].buffer.Buffer?
  }

  ghost predicate AllErrors(sent: seq<Pushed>) {
    forall k :: 0 <= k < |sent| ==> sent[k].Error?
  }

  // What has been sent for the bytes flat, whatever the packets were.
  ghost predicate SentFor(parse: Parser, id: nat, flat: bytes, s: State, sent: seq<Pushed>) {
    match BlankLine(flat)
    case None => s == State(id, flat, false) && sent == []
    case Some(end) =>
      match parse(flat[..end])
      case None => s == State(id, flat, false) && sent != [] && AllErrors(sent)
      case Some(request) =>
        && s == State(id, [], true) && sent != [] && sent[0] == NewRequest(id, request) && AllBody(id, sent[1..])
        && Body(sent[1..]) == flat[end + |DOUBLE_CR_LF|..]
  }

  lemma BodyAppend(sent: seq<Pushed>, p: Pushed)
    ensures Body(sent + [p]) == Body(sent) + if p.BodyData? && p.buffer.Buffer? then p.buffer.bytes else []
  {
    assert (sent + [p])[..|sent|] == sent;
  }

  lemma BodyGrows(id: nat, sent: seq<Pushed>, packet: bytes)
    requires sent != [] && AllBody(id, sent[1..])
    ensures var more := sent + [BodyData(id, Buffer.Buffer(packet))];
      more[0] == sent[0] && AllBody(id, more[1..]) && Body(more[1..]) == Body(sent[1..]) + packet
  {
    var body := BodyData(id, Buffer.Buffer(packet));
    BodyAppend(sent[1..], body);
    assert (sent + [body])[1..] == sent[1..] + [body];
  }

  // The headers are complete: every further packet is body.
  lemma StepSent(parse: Parser, id: nat, flat: bytes, s: State, sent: seq<Pushed>, packet: bytes, end: nat)
    requires SentFor(parse, id, flat, s, sent) && BlankLine(flat) == Some(end) && parse(flat[..end]).Some?
    ensures var (next, more) := Step(parse, s, Buffer.Buffer(packet));
            SentFor(parse, id, flat + packet, next, sent + more)
  {
    SameBlock(flat, packet);
    BodyGrows(id, sent, packet);
    assert (flat + packet)[end + |DOUBLE_CR_LF|..] == flat[end + |DOUBLE_CR_LF|..] + packet;
  }

  lemma StepRefused(parse: Parser, id: nat, flat: bytes, s: State, sent: seq<Pushed>, packet: bytes, end: nat)
    requires SentFor(parse, id, flat, s, sent) && BlankLine(flat) == Some(end) && parse(flat[..end]).None?
    ensures var (next, more) := Step(parse, s, Buffer.Buffer(packet));
            SentFor(parse, id, flat + packet, next, sent + more)
  {
    SameBlock(flat, packet);
  }

  lemma StepBuffering(parse: Parser, id: nat, flat: bytes, s: State, sent: seq<Pushed>, packet: bytes)
    requires SentFor(parse, id, flat, s, sent) && BlankLine(flat) == None
    ensures var (next, more) := Step(parse, s, Buffer.Buffer(packet));
            SentFor(parse, id, flat + packet, next, sent + more)
  {
    var all := flat + packet;
    if BlankLine(all).Some? {
      var end := BlankLine(all).value;
      if parse(all[..end]).Some? {
        OpeningIsRequestAndBody(id, parse(all[..end]).value, all, end);
      }
    }
  }

  lemma OpeningIsRequestAndBody(id: nat, request: Request, flat: bytes, end: nat)
    requires end + |DOUBLE_CR_LF| <= |flat|
    ensures var sent := Opening(id, request, flat, end);
      && sent != [] && sent[0] == NewRequest(id, request) && AllBody(id, sent[1..])
      && Body(sent[1..]) == flat[end + |DOUBLE_CR_LF|..]
  {
    var body := flat[end + |DOUBLE_CR_LF|..];
    var sent := Opening(id, request, flat, end);
    if body == [] {
      assert sent[1..] == [];
    } else {
      assert sent[1..] == [] + [BodyData(id, Buffer.Buffer(body))];
      BodyAppend([], BodyData(id, Buffer.Buffer(body)));
    }
  }

  lemma {:induction false} RunSends(parse: Parser, id: nat, packets: seq<bytes>)
    ensures var (s, sent) := Run(parse, id, packets); SentFor(parse, id, Joined(packets), s, sent)
  {
    if packets == [] {
      FirstMatchNone([], DOUBLE_CR_LF, 0, 0);
    } else {
      var before, packet := packets[..|packets| - 1], packets[|packets| - 1];
      RunSends(parse, id, before);
      var (s, sent) := Run(parse, id, before);
      var flat := Joined(before);
      if BlankLine(flat).None? {
        StepBuffering(parse, id, flat, s, sent, packet);
      } else if parse(flat[..BlankLine(flat).value]).None? {
        StepRefused(parse, id, flat, s, sent, packet, BlankLine(flat).value);
      } else {
        StepSent(parse, id, flat, s, sent, packet, BlankLine(flat).value);
      }
    }
  }

  // One New Request for the header block, body packets with exactly the bytes after the blank line, one Request Ended.
  ghost predicate WholeRequest(id: nat, request: Request, body: bytes, sent: seq<Pushed>) {
    && |sent| >= 2 && sent[0] == NewRequest(id, request) && sent[|sent| - 1] == RequestEnded(id)
    && AllBody(id, sent[1..|sent| - 1]) && Body(sent[1..|sent| - 1]) == body
  }

  /** However the bytes of a connection are cut into packets: nothing without a blank line; with one, either errors
      only, when the header block is refused, or the whole request. */
  lemma ConnectionSends(parse: Parser, id: nat, packets: seq<bytes>)
    ensures
      var flat, sent := Joined(packets), Connection(parse, id, packets);
      match BlankLine(flat)
      case None => sent == []
      case Some(end) =>
        match parse(flat[..end])
        case None => sent != [] && AllErrors(sent)
        case Some(request) => WholeRequest(id, request, flat[end + |DOUBLE_CR_LF|..], sent)
  {
    RunSends(parse, id, packets);
    var (s, sent) := Run(parse, id, packets);
    if sent != [] {
      assert (sent + [RequestEnded(id)])[1..|sent|] == sent[1..];
    }
  }

  function NewRequests(sent: seq<Pushed>): seq<Pushed> {
    if sent == [] then []
    else NewRequests(sent[..|sent| - 1]) + if sent[|sent| - 1].NewRequest? then [sent[|sent| - 1]] else []
  }

  lemma {:induction false} OnlyFirstIsRequest(sent: seq<Pushed>)
    requires forall k :: 1 <= k < |sent| ==> !sent[k].NewRequest?
    ensures NewRequests(sent) == if sent != [] && sent[0].NewRequest? then [sent[0]] else []
  {
    if |sent| > 1 {
      OnlyFirstIsRequest(sent[..|sent| - 1]);
    } else if |sent| == 1 {
      assert sent[..0] == [];
    }
  }

  lemma BodyWithin(sent: seq<Pushed>)
    requires |sent| >= 2 && !sent[0].BodyData? && !sent[|sent| - 1].BodyData?
    ensures Body(sent) == Body(sent[1..|sent| - 1])
  {
    BodyDropFirst(sent[..|sent| - 1]);
    assert sent[..|sent| - 1][1..] == sent[1..|sent| - 1];
  }

  lemma {:induction false} BodyDropFirst(sent: seq<Pushed>)
    requires sent != [] && !sent[0].BodyData?
    ensures Body(sent) == Body(sent[1..])
  {
    if |sent| > 1 {
      BodyDropFirst(sent[..|sent| - 1]);
      assert sent[..|sent| - 1][1..] == sent[1..][..|sent| - 2];
    } else {
      assert sent[..0] == [];
    }
  }

  lemma {:induction false} NoBody(sent: seq<Pushed>)
    requires AllErrors(sent)
    ensures Body(sent) == []
  {
    if sent != [] {
      NoBody(sent[..|sent| - 1]);
    }
  }

  // What a connection amounts to, as a function of its bytes.
  function Meaning(parse: Parser, id: nat, flat: bytes): (seq<Pushed>, bytes) {
    match BlankLine(flat)
    case None => ([], [])
    case Some(end) =>
      match parse(flat[..end])
      case None => ([], [])
      case Some(request) => ([NewRequest(id, request)], flat[end + |DOUBLE_CR_LF|..])
  }

  lemma OneRequestOneBody(id: nat, request: Request, body: bytes, sent: seq<Pushed>)
    requires WholeRequest(id, request, body, sent)
    ensures NewRequests(sent) == [NewRequest(id, request)] && Body(sent) == body
  {
    forall k | 1 <= k < |sent|
      ensures !sent[k].NewRequest?
    {
      assert k < |sent| - 1 ==> sent[k] == sent[1..|sent| - 1][k - 1];
    }
    OnlyFirstIsRequest(sent);
    BodyWithin(sent);
  }

  lemma NothingMeans(sent: seq<Pushed>)
    requires AllErrors(sent)
    ensures NewRequests(sent) == [] && Body(sent) == []
  {
    NoBody(sent);
    OnlyFirstIsRequest(sent);
  }

  lemma ConnectionMeans(parse: Parser, id: nat, packets: seq<bytes>)
    ensures var sent := Connection(parse, id, packets);
            (NewRequests(sent), Body(sent)) == Meaning(parse, id, Joined(packets))
  {
    ConnectionSends(parse, id, packets);
    var flat, sent := Joined(packets), Connection(parse, id, packets);
    var end := BlankLine(flat);
    if end.Some? && parse(flat[..end.value]).Some? {
      OneRequestOneBody(id, parse(flat[..end.value]).value, flat[end.value + |DOUBLE_CR_LF|..], sent);
    } else {
      NothingMeans(sent);
    }
  }

  /** Two cuttings of the same bytes send the same requests and the same body. */
  lemma CuttingIrrelevant(parse: Parser, id: nat, packets: seq<bytes>, others: seq<bytes>)
    requires Joined(packets) == Joined(others)
    ensures NewRequests(Connection(parse, id, packets)) == NewRequests(Connection(parse, id, others))
    ensures Body(Connection(parse, id, packets)) == Body(Connection(parse, id, others))
  {
    ConnectionMeans(parse, id, packets);
    ConnectionMeans(parse, id, others);
  }

  /** With the parser of the extractor: a connection with a blank line gives its one New Request unless the last line
      above the blank line, below the request line, is a Content-Length line. */
  lemma OneRequestIffNoContentLength(id: nat, packets: seq<bytes>, end: nat)
    requires BlankLine(Joined(packets)) == Some(end)
    ensures
      var lines := Fragments(Joined(packets)[..end], CR_LF, 0);
      |NewRequests(Connection(ParseRequest, id, packets))| == 1 <==>
        !(|lines| > 1 && Key(lines[|lines| - 1]) == CONTENT_LENGTH)
  {
    ConnectionMeans(ParseRequest, id, packets);
    ParsesIffNoContentLength(Joined(packets)[..end]);
  }

  lemma {:induction false} JoinedLength(packets: seq<bytes>, i: nat)
    requires i <= |packets|
    ensures |Joined(packets[..i])| <= |Joined(packets)|
  {
    if i == |packets| {
      assert packets[..i] == packets;
    } else {
      assert packets[..|packets| - 1][..i] == packets[..i];
      JoinedLength(packets[..|packets| - 1], i);
    }
  }

  lemma RunBuffers(parse: Parser, id: nat, packets: seq<bytes>)
    ensures |Run(parse, id, packets).0.buffered| <= |Joined(packets)|
  {
    RunSends(parse, id, packets);
  }

  // One extractor over a whole connection, from its construction to its destruction.
  method Serve(id: nat, packets: seq<bytes>) returns (sent: seq<Pushed>)
    requires |Joined(packets)| < SIZE_MAX - |DOUBLE_CR_LF|
    ensures sent == Connection(ParseRequest, id, packets)
  {
    var extractor := new HttpRequestExtractor(id);
    for i := 0 to |packets|
      invariant fresh(extractor) && fresh(extractor.headerData) && extractor.Valid() && extractor.requestId == id
      invariant (extractor.Abstract(), extractor.pushed) == Run(ParseRequest, id, packets[..i])
    {
      assert packets[..i + 1][..i] == packets[..i];
      RunBuffers(ParseRequest, id, packets[..i]);
      JoinedLength(packets, i + 1);
      JoinedNext(id, packets, i);
      extractor.HandlePacket(Buffer.Buffer(packets[i]));
    }
    assert packets[..|packets|] == packets;
    extractor.EndOfRequest();
    sent := extractor.pushed;
  }

  lemma JoinedNext(id: nat, packets: seq<bytes>, i: nat)
    requires i < |packets|
    ensures |Joined(packets[..i + 1])| == |Joined(packets[..i])| + |packets[i]|
  {
    assert packets[..i + 1][..i] == packets[..i];
  }
}
