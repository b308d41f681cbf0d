/**
 * The HTTP client of client.js: the response parser, the chunked-body
 * parser and the body encoding of a request.
 *
 * `ResponseParser` reads the status line, the header fields and the blank
 * line of an HTTP/1.1 response (sections 3.1.2 and 3.2 of RFC 7230) one
 * character at a time, and hands the message body to a
 * `TrunkedBodyParser` when the response uses the chunked transfer coding
 * (section 4.1 of RFC 7230). Both parsers are state machines that update
 * their fields in place; each is described twice, by a pure step function
 * on a value (the specification) and by a class whose methods update its
 * fields exactly as the step function says.
 */
module Http {
  import opened JsUtil

  // ---------------------------------------------------------------------
  // The chunked-body parser: specification.
  // ---------------------------------------------------------------------

  /** `WAITING_LENGTH` (0) … `READING_TRUNK_END` (3). */
  datatype ChunkState = WaitingLength | WaitingLengthEnd | ReadingTrunk | ReadingTrunkEnd

  /**
   * `this.length`, a JavaScript number: a count, or `NaN` once a character
   * that is not a hex digit has been read into it.
   */
  datatype Length = Count(n: int) | NaN

  datatype Chunked = Chunked(state: ChunkState, length: Length, finished: bool, content: string)

  /** The state the constructor leaves. */
  const NewChunked := Chunked(WaitingLength, Count(0), false, [])

  /** `parseInt(c, 16)` on one character: its hex value, `None` for `NaN`. */
  function HexDigit(c: char): (r: Option<nat>)
    ensures r.Some? ==> r.value < 16
  {
    if '0' <= c <= '9' then Some(c as nat - '0' as nat)
    else if 'a' <= c <= 'f' then Some(c as nat - 'a' as nat + 10)
    else if 'A' <= c <= 'F' then Some(c as nat - 'A' as nat + 10)
    else None
  }

  /** `this.length * 16 + parseInt(c, 16)`: `NaN` absorbs everything. */
  function AddDigit(l: Length, d: Option<nat>): Length
  {
    if l.Count? && d.Some? then Count(l.n * 16 + d.value) else NaN
  }

  /** `--this.length`. */
  function Decrement(l: Length): Length
  {
    if l.Count? then Count(l.n - 1) else NaN
  }

  /**
   * `TrunkedBodyParser.receiveCharactor(c)`. Only the `WAITING_LENGTH` and
   * `READING_TRUNK` states have a case; in the other two nothing changes.
   */
  function ChunkStep(p: Chunked, c: char): Chunked
  {
    match p.state
    case WaitingLength =>
      if c == '\n' then
        if p.length == Count(0) then p.(finished := true, state := ReadingTrunkEnd)
        else p.(state := ReadingTrunk)
      else if c != '\r' then p.(length := AddDigit(p.length, HexDigit(c)))
      else p
    case ReadingTrunk =>
      var q := p.(content := p.content + [c], length := Decrement(p.length));
      if q.length == Count(0) then q.(finished := true, state := ReadingTrunkEnd) else q
    case WaitingLengthEnd => p
    case ReadingTrunkEnd => p
  }

  /** The characters of `s` fed one after another. */
  function ChunkFeed(p: Chunked, s: string): Chunked
    decreases |s|
  {
    if s == [] then p else ChunkStep(ChunkFeed(p, s[..|s| - 1]), s[|s| - 1])
  }

  // ---------------------------------------------------------------------
  // The chunked-body parser: the class.
  // ---------------------------------------------------------------------

  class TrunkedBodyParser {
    var current: ChunkState
    var length: Length
    var finished: bool
    /** `this.content`: every element the source pushes is one character. */
    var content: string

    function Model(): Chunked
      reads this
    {
      Chunked(current, length, finished, content)
    }

    constructor ()
      ensures Model() == NewChunked
    {
      current, length, finished, content := WaitingLength, Count(0), false, [];
    }

    /** The `bodyText` getter: `content.join('')` of one-character strings. */
    function BodyText(): string
      reads this
    {
      content
    }

    method ReceiveCharacter(c: char)
      modifies this
      ensures Model() == ChunkStep(old(Model()), c)
    {
      match current
      case WaitingLength =>
        if c == '\n' {
          if length == Count(0) {
            finished := true;
            current := ReadingTrunkEnd;
          } else {
            current := ReadingTrunk;
          }
        } else if c != '\r' {
          length := AddDigit(length, HexDigit(c));
        }
      case ReadingTrunk =>
        content := content + [c];
        length := Decrement(length);
        if length == Count(0) {
          finished := true;
          current := ReadingTrunkEnd;
        }
      case WaitingLengthEnd =>
      case ReadingTrunkEnd =>
    }
  }

  // ---------------------------------------------------------------------
  // Properties of the chunked-body parser.
  // ---------------------------------------------------------------------

  lemma {:induction false} ChunkFeedAppend(p: Chunked, a: string, b: string)
    ensures ChunkFeed(p, a + b) == ChunkFeed(ChunkFeed(p, a), b)
    decreases |b|
  {
    if b == [] {
      assert a + b == a;
    } else {
      var b' := b[..|b| - 1];
      ChunkFeedAppend(p, a, b');
      assert (a + b)[..|a + b| - 1] == a + b';
    }
  }

  /**
   * What holds of every state the parser reaches: it is finished exactly in
   * `READING_TRUNK_END`, it never enters `WAITING_LENGTH_END`, a count is
   * never negative, and a chunk still being read has characters left.
   */
  predicate ChunkOk(p: Chunked)
  {
    (p.finished <==> p.state == ReadingTrunkEnd) && p.state != WaitingLengthEnd &&
    (p.length.Count? ==> p.length.n >= 0) &&
    (p.state == ReadingTrunk && p.length.Count? ==> p.length.n > 0)
  }

  lemma ChunkStepOk(p: Chunked, c: char)
    requires ChunkOk(p)
    ensures ChunkOk(ChunkStep(p, c))
  {
  }

  /** The constructor's state is sound, and every input keeps it sound. */
  lemma {:induction false} ChunkFeedOk(p: Chunked, s: string)
    requires ChunkOk(p)
    ensures ChunkOk(ChunkFeed(p, s))
    decreases |s|
  {
    if s != [] {
      ChunkFeedOk(p, s[..|s| - 1]);
      ChunkStepOk(ChunkFeed(p, s[..|s| - 1]), s[|s| - 1]);
    }
  }

  /** Once finished, the parser ignores everything that follows. */
  lemma {:induction false} FinishedStays(p: Chunked, s: string)
    requires p.state == ReadingTrunkEnd
    ensures ChunkFeed(p, s) == p
    decreases |s|
  {
    if s != [] {
      FinishedStays(p, s[..|s| - 1]);
    }
  }

  predicate AllHex(ds: string)
  {
    forall i :: 0 <= i < |ds| ==> HexDigit(ds[i]).Some?
  }

  function Pow16(n: nat): (r: nat)
    ensures r >= 1
  {
    if n == 0 then 1 else 16 * Pow16(n - 1)
  }

  /** The number the hex digits `ds` denote, most significant first. */
  function HexValue(ds: string): nat
    requires AllHex(ds)
  {
    if ds == [] then 0
    else HexDigit(ds[0]).value * Pow16(|ds| - 1) + HexValue(ds[1..])
  }

  lemma AllHexSnoc(ds: string, c: char)
    requires AllHex(ds) && HexDigit(c).Some?
    ensures AllHex(ds + [c]) && (ds != [] ==> (ds + [c])[1..] == ds[1..] + [c])
  {
    var e := ds + [c];
    assert forall i :: 0 <= i < |e| ==> e[i] == if i < |ds| then ds[i] else c;
  }

  /** One more digit at the end multiplies the value by 16 and adds the digit. */
  lemma {:induction false} HexValueSnoc(ds: string, c: char)
    requires AllHex(ds) && HexDigit(c).Some?
    ensures AllHex(ds + [c]) && HexValue(ds + [c]) == HexValue(ds) * 16 + HexDigit(c).value
    decreases |ds|
  {
    AllHexSnoc(ds, c);
    if ds != [] {
      HexValueSnoc(ds[1..], c);
      ShiftDigit(HexDigit(ds[0]).value, |ds|, HexValue(ds[1..]), HexDigit(c).value);
    }
  }

  /** The arithmetic of `HexValueSnoc`: the leading digit's weight grows by a factor of 16. */
  lemma ShiftDigit(d: nat, n: nat, rest: nat, last: nat)
    requires n >= 1
    ensures d * Pow16(n) + (rest * 16 + last) == (d * Pow16(n - 1) + rest) * 16 + last
  {
    assert d * (16 * Pow16(n - 1)) == (d * Pow16(n - 1)) * 16;
  }

  /** The chunk-size line's digits, read from a zero length, give the number they denote in hex. */
  lemma {:induction false} ReadLength(p: Chunked, ds: string)
    requires p.state == WaitingLength && p.length == Count(0) && AllHex(ds)
    ensures ChunkFeed(p, ds) == p.(length := Count(HexValue(ds)))
    decreases |ds|
  {
    if ds != [] {
      var ds' := ds[..|ds| - 1];
      var c := ds[|ds| - 1];
      assert ds == ds' + [c];
      assert AllHex(ds') by {
        assert forall i :: 0 <= i < |ds'| ==> ds'[i] == ds[i];
      }
      ReadLength(p, ds');
      HexValueSnoc(ds', c);
    }
  }

  /** `\r` on the chunk-size line is skipped. */
  lemma CarriageReturnSkipped(p: Chunked)
    requires p.state == WaitingLength
    ensures ChunkStep(p, '\r') == p
  {
  }

  /** A character that is not a hex digit turns the length into `NaN`. */
  lemma NonHexPoisons(p: Chunked, c: char)
    requires p.state == WaitingLength && c != '\n' && c != '\r' && HexDigit(c).None?
    ensures ChunkStep(p, c) == p.(length := NaN)
  {
  }

  /** With a `NaN` length the parser never finishes, whatever follows. */
  lemma {:induction false} NaNNeverFinishes(p: Chunked, s: string)
    requires p.length == NaN && (p.state == WaitingLength || p.state == ReadingTrunk) && !p.finished
    ensures var q := ChunkFeed(p, s);
      q.length == NaN && (q.state == WaitingLength || q.state == ReadingTrunk) && !q.finished
    decreases |s|
  {
    if s != [] {
      NaNNeverFinishes(p, s[..|s| - 1]);
    }
  }

  /** Fewer characters than the chunk's length are appended, and the rest of the length remains. */
  lemma {:induction false} ReadChunkPrefix(p: Chunked, body: string, n: int)
    requires p.state == ReadingTrunk && p.length == Count(n) && |body| < n
    ensures ChunkFeed(p, body) == p.(length := Count(n - |body|), content := p.content + body)
    decreases |body|
  {
    if body == [] {
      assert p.content + body == p.content;
    } else {
      var b' := body[..|body| - 1];
      ReadChunkPrefix(p, b', n);
      assert p.content + b' + [body[|body| - 1]] == p.content + body;
    }
  }

  /** Exactly the chunk's length of characters is appended, and then the parser finishes. */
  lemma ReadChunk(p: Chunked, body: string)
    requires p.state == ReadingTrunk && p.length == Count(|body|) && |body| >= 1
    ensures ChunkFeed(p, body) == Chunked(ReadingTrunkEnd, Count(0), true, p.content + body)
  {
    var b' := body[..|body| - 1];
    ReadChunkPrefix(p, b', |body|);
    assert p.content + b' + [body[|body| - 1]] == p.content + body;
  }

  /** The end of the chunk-size line: `\r` is skipped and `\n` ends it. */
  lemma LineEnd(q: Chunked)
    requires q.state == WaitingLength
    ensures ChunkFeed(q, "\r\n") == ChunkStep(q, '\n')
  {
    assert "\r\n"[..1] == "\r";
    assert "\r"[..0] == "";
  }

  /**
   * A size line of hex digits with a non-zero value, then that many
   * characters: the body is exactly those characters and the parser has
   * finished. Only this first chunk is ever read.
   */
  lemma FirstChunk(ds: string, body: string)
    requires AllHex(ds) && HexValue(ds) == |body| >= 1
    ensures ChunkFeed(NewChunked, ds + "\r\n" + body) == Chunked(ReadingTrunkEnd, Count(0), true, body)
  {
    ChunkFeedAppend(NewChunked, ds + "\r\n", body);
    ChunkFeedAppend(NewChunked, ds, "\r\n");
    ReadLength(NewChunked, ds);
    var q := NewChunked.(length := Count(HexValue(ds)));
    LineEnd(q);
    ReadChunk(q.(state := ReadingTrunk), body);
  }

  /** A size line whose value is 0 finishes the parser with an empty body. */
  lemma ZeroChunk(ds: string)
    requires AllHex(ds) && HexValue(ds) == 0
    ensures ChunkFeed(NewChunked, ds + "\r\n") == Chunked(ReadingTrunkEnd, Count(0), true, [])
  {
    ChunkFeedAppend(NewChunked, ds, "\r\n");
    ReadLength(NewChunked, ds);
    LineEnd(NewChunked);
  }

  // ---------------------------------------------------------------------
  // The response parser: specification.
  // ---------------------------------------------------------------------

  /**
   * `WAITING_STATUS_LINE` (0) … `WAITING_BODY` (6). `WAITING_BODY_END` is
   * also 6, so a finished body leaves the parser where it was.
   */
  datatype ResponseState =
    | WaitingStatusLine
    | WaitingHeaderName
    | WaitingHeaderSpace
    | WaitingHeaderValue
    | WaitingStatusBlockEnd
    | WaitingBody

  /** The fields of a `ResponseParser`; `body` is the body parser, `None` while it is `null`. */
  datatype Response = Response(
    state: ResponseState, statusLine: string, headers: map<string, string>,
    headerName: string, headerValue: string, bodyText: string, body: Option<Chunked>)

  const NewResponse := Response(WaitingStatusLine, "", map[], "", "", "", None)

  /** `this.headers['Transfer-Encoding'] === 'chunked'`. */
  predicate IsChunked(headers: map<string, string>)
  {
    "Transfer-Encoding" in headers && headers["Transfer-Encoding"] == "chunked"
  }

  /**
   * `ResponseParser.receiveCharactor(c)`; `None` when it throws, which it
   * does in `WAITING_BODY` without a body parser (a method call on `null`).
   */
  function ResponseStep(p: Response, c: char): Option<Response>
  {
    match p.state
    case WaitingStatusLine =>
      Some(if c == '\n' then p.(state := WaitingHeaderName)
           else if c != '\r' then p.(statusLine := p.statusLine + [c])
           else p)
    case WaitingHeaderName =>
      Some(if c == ':' then p.(state := WaitingHeaderSpace) else p.(headerName := p.headerName + [c]))
    case WaitingHeaderSpace =>
      Some(p.(headerValue := if c != ' ' then p.headerValue + [c] else p.headerValue, state := WaitingHeaderValue))
    case WaitingHeaderValue =>
      Some(if c == '\n' then
             p.(headers := p.headers[p.headerName := p.headerValue], headerName := "", headerValue := "",
                state := WaitingStatusBlockEnd)
           else if c != '\r' then p.(headerValue := p.headerValue + [c])
           else p)
    case WaitingStatusBlockEnd =>
      Some(if c == '\n' then p.(body := if IsChunked(p.headers) then Some(NewChunked) else p.body, state := WaitingBody)
           else if c != '\r' then p.(headerName := p.headerName + [c], state := WaitingHeaderName)
           else p)
    case WaitingBody =>
      if p.body.None? then None
      else
        var b := ChunkStep(p.body.value, c);
        Some(p.(body := Some(b), bodyText := if b.finished then b.content else p.bodyText))
  }

  /** The parser's state after a run of characters, and whether the run threw. */
  datatype Received = Received(state: Response, thrown: bool)

  /**
   * `receive(s)`: the characters fed in order; a throw ends the loop and
   * leaves the fields as they were when it was raised.
   */
  function ReceiveAll(p: Response, s: string): Received
    decreases |s|
  {
    if s == [] then Received(p, false)
    else
      var r := ReceiveAll(p, s[..|s| - 1]);
      if r.thrown then r
      else
        var q := ResponseStep(r.state, s[|s| - 1]);
        if q.None? then Received(r.state, true) else Received(q.value, false)
  }

  // ---------------------------------------------------------------------
  // The response parser: the class.
  // ---------------------------------------------------------------------

  class ResponseParser {
    var current: ResponseState
    var statusLine: string
    var headers: map<string, string>
    var headerName: string
    var headerValue: string
    var bodyText: string
    var bodyParser: TrunkedBodyParser?

    function Model(): Response
      reads this, bodyParser
    {
      Response(current, statusLine, headers, headerName, headerValue, bodyText,
               if bodyParser == null then None else Some(bodyParser.Model()))
    }

    constructor ()
      ensures Model() == NewResponse
    {
      current := WaitingStatusLine;
      statusLine, headers, headerName, headerValue, bodyText := "", map[], "", "", "";
      bodyParser := null;
    }

    /** The `finished` getter: `this.bodyParser && this.bodyParser.finished`. */
    predicate Finished()
      reads this, bodyParser
    {
      bodyParser != null && bodyParser.finished
    }

    /** `receiveCharactor(c)`; `ok` is false when it throws. */
    method ReceiveCharacter(c: char) returns (ok: bool)
      modifies this, bodyParser
      ensures bodyParser == old(bodyParser) || fresh(bodyParser)
      ensures var r := ResponseStep(old(Model()), c);
        ok == r.Some? && Model() == if ok then r.value else old(Model())
    {
      ok := true;
      match current
      case WaitingStatusLine =>
        if c == '\n' {
          current := WaitingHeaderName;
        } else if c != '\r' {
          statusLine := statusLine + [c];
        }
      case WaitingHeaderName =>
        if c == ':' {
          current := WaitingHeaderSpace;
        } else {
          headerName := headerName + [c];
        }
      case WaitingHeaderSpace =>
        if c != ' ' {
          headerValue := headerValue + [c];
        }
        current := WaitingHeaderValue;
      case WaitingHeaderValue =>
        if c == '\n' {
          headers := headers[headerName := headerValue];
          headerName := "";
          headerValue := "";
          current := WaitingStatusBlockEnd;
        } else if c != '\r' {
          headerValue := headerValue + [c];
        }
      case WaitingStatusBlockEnd =>
        if c == '\n' {
          if "Transfer-Encoding" in headers && headers["Transfer-Encoding"] == "chunked" {
            bodyParser := new TrunkedBodyParser();
          }
          current := WaitingBody;
        } else if c != '\r' {
          headerName := headerName + [c];
          current := WaitingHeaderName;
        }
      case WaitingBody =>
        if bodyParser == null {
          return false;
        }
        bodyParser.ReceiveCharacter(c);
        if bodyParser.finished {
          bodyText := bodyParser.BodyText();
        }
    }

    /** `receive(s)`: `ok` is false when a character threw. */
    method Receive(s: string) returns (ok: bool)
      modifies this, bodyParser
      ensures var r := ReceiveAll(old(Model()), s);
        ok == !r.thrown && Model() == r.state
    {
      ghost var p := Model();
      for i := 0 to |s|
        invariant bodyParser == old(bodyParser) || fresh(bodyParser)
        invariant ReceiveAll(p, s[..i]) == Received(Model(), false)
      {
        assert s[..i + 1][..i] == s[..i];
        ok := ReceiveCharacter(s[i]);
        if !ok {
          ReceiveAllAppend(p, s[..i + 1], s[i + 1..]);
          assert s[..i + 1] + s[i + 1..] == s;
          return;
        }
      }
      assert s[..|s|] == s;
      ok := true;
    }
  }

  // ---------------------------------------------------------------------
  // Properties of the response parser.
  // ---------------------------------------------------------------------

  /** Feeding `a + b` is feeding `a`, then, unless that threw, feeding `b`. */
  lemma {:induction false} ReceiveAllAppend(p: Response, a: string, b: string)
    ensures ReceiveAll(p, a + b) ==
      if ReceiveAll(p, a).thrown then ReceiveAll(p, a) else ReceiveAll(ReceiveAll(p, a).state, b)
    decreases |b|
  {
    if b == [] {
      assert a + b == a;
    } else {
      var b' := b[..|b| - 1];
      ReceiveAllAppend(p, a, b');
      assert (a + b)[..|a + b| - 1] == a + b';
    }
  }

  /** `s` without its `\r` characters. */
  function WithoutCR(s: string): string
  {
    if s == [] then []
    else (if s[0] == '\r' then [] else [s[0]]) + WithoutCR(s[1..])
  }

  lemma {:induction false} WithoutCRSnoc(s: string, c: char)
    ensures WithoutCR(s + [c]) == WithoutCR(s) + (if c == '\r' then [] else [c])
    decreases |s|
  {
    if s != [] {
      assert (s + [c])[1..] == s[1..] + [c];
      WithoutCRSnoc(s[1..], c);
    }
  }

  /** A string with no `\r` is its own `WithoutCR`. */
  lemma {:induction false} WithoutCRNone(s: string)
    requires '\r' !in s
    ensures WithoutCR(s) == s
    decreases |s|
  {
    if s != [] {
      assert '\r' !in s[1..];
      WithoutCRNone(s[1..]);
    }
  }

  /** The status line collects every character but `\r`, up to the first `\n`. */
  lemma {:induction false} StatusLineRead(p: Response, line: string)
    requires p.state == WaitingStatusLine && '\n' !in line
    ensures ReceiveAll(p, line) == Received(p.(statusLine := p.statusLine + WithoutCR(line)), false)
    decreases |line|
  {
    if line == [] {
      assert p.statusLine + WithoutCR(line) == p.statusLine;
    } else {
      var l' := line[..|line| - 1];
      var c := line[|line| - 1];
      assert line == l' + [c];
      StatusLineRead(p, l');
      WithoutCRSnoc(l', c);
    }
  }

  /** A `\n` ends the status line and the parser waits for a header name. */
  lemma StatusLineEnds(p: Response, line: string)
    requires p.state == WaitingStatusLine && '\n' !in line
    ensures ReceiveAll(p, line + "\n") ==
      Received(p.(statusLine := p.statusLine + WithoutCR(line), state := WaitingHeaderName), false)
  {
    StatusLineRead(p, line);
    assert (line + "\n")[..|line|] == line;
  }

  /** A header name takes every character up to the first `:`. */
  lemma {:induction false} HeaderNameRead(p: Response, name: string)
    requires p.state == WaitingHeaderName && ':' !in name
    ensures ReceiveAll(p, name) == Received(p.(headerName := p.headerName + name), false)
    decreases |name|
  {
    if name == [] {
      assert p.headerName + name == p.headerName;
    } else {
      var n' := name[..|name| - 1];
      HeaderNameRead(p, n');
      assert p.headerName + n' + [name[|name| - 1]] == p.headerName + name;
    }
  }

  /** The one character after `:` is dropped when it is a space and otherwise starts the value. */
  lemma HeaderSpace(p: Response, c: char)
    requires p.state == WaitingHeaderSpace
    ensures ResponseStep(p, c) ==
      Some(p.(state := WaitingHeaderValue, headerValue := if c == ' ' then p.headerValue else p.headerValue + [c]))
  {
  }

  /** A header value takes every character but `\r` up to the first `\n`. */
  lemma {:induction false} HeaderValueRead(p: Response, value: string)
    requires p.state == WaitingHeaderValue && '\n' !in value
    ensures ReceiveAll(p, value) == Received(p.(headerValue := p.headerValue + WithoutCR(value)), false)
    decreases |value|
  {
    if value == [] {
      assert p.headerValue + WithoutCR(value) == p.headerValue;
    } else {
      var v' := value[..|value| - 1];
      var c := value[|value| - 1];
      assert value == v' + [c];
      HeaderValueRead(p, v');
      WithoutCRSnoc(v', c);
    }
  }

  /** `name: ` up to the value: the name is collected and the space dropped. */
  lemma HeaderNameAndSpace(p: Response, name: string)
    requires p.state == WaitingHeaderName && ':' !in name
    ensures ReceiveAll(p, name + ": ") == Received(p.(headerName := p.headerName + name, state := WaitingHeaderValue), false)
  {
    HeaderNameRead(p, name);
    assert (name + ": ")[..|name| + 1] == name + ":";
    assert (name + ":")[..|name|] == name;
  }

  /**
   * A header line `name: value\n` stores the value, without `\r`, under
   * the name, clears both accumulators and waits for the next line.
   */
  lemma HeaderLineRead(p: Response, name: string, value: string)
    requires p.state == WaitingHeaderName && ':' !in name && '\n' !in value
    ensures ReceiveAll(p, name + ": " + value + "\n") ==
      Received(p.(headers := p.headers[p.headerName + name := p.headerValue + WithoutCR(value)],
                  headerName := "", headerValue := "", state := WaitingStatusBlockEnd), false)
  {
    HeaderNameAndSpace(p, name);
    var q := p.(headerName := p.headerName + name, state := WaitingHeaderValue);
    ReceiveAllAppend(p, name + ": ", value);
    HeaderValueRead(q, value);
    assert (name + ": " + value + "\n")[..|name + ": " + value|] == name + ": " + value;
  }

  /**
   * After a header line: `\r` is skipped; `\n` ends the header block and
   * creates a body parser exactly when `Transfer-Encoding` is `chunked`;
   * any other character starts the next header name.
   */
  lemma BlockEnd(p: Response, c: char)
    requires p.state == WaitingStatusBlockEnd
    ensures c == '\r' ==> ResponseStep(p, c) == Some(p)
    ensures c == '\n' ==> ResponseStep(p, c).Some? && ResponseStep(p, c).value.state == WaitingBody
    ensures c == '\n' && p.body.None? ==> (ResponseStep(p, c).value.body.Some? <==> IsChunked(p.headers))
    ensures c == '\n' && IsChunked(p.headers) ==> ResponseStep(p, c).value.body == Some(NewChunked)
    ensures c != '\n' && c != '\r' ==>
      ResponseStep(p, c) == Some(p.(headerName := p.headerName + [c], state := WaitingHeaderName))
  {
  }

  /** Without a body parser, the first body character throws and nothing after it is read. */
  lemma {:induction false} NoBodyParserThrows(p: Response, s: string)
    requires p.state == WaitingBody && p.body.None?
    ensures ReceiveAll(p, s) == Received(p, s != [])
    decreases |s|
  {
    if s != [] {
      NoBodyParserThrows(p, s[..|s| - 1]);
    }
  }

  /** A finished body parser has handed its body to the response parser. */
  predicate BodyInSync(p: Response)
  {
    p.body.Some? && ChunkOk(p.body.value) && (p.body.value.finished ==> p.bodyText == p.body.value.content)
  }

  /**
   * In `WAITING_BODY` every character goes to the body parser, and the
   * response's `bodyText` is the body parser's content once it has
   * finished, and unchanged before.
   */
  lemma {:induction false} BodyFollowsChunks(p: Response, s: string)
    requires p.state == WaitingBody && BodyInSync(p)
    ensures var b := ChunkFeed(p.body.value, s);
      ReceiveAll(p, s) ==
        Received(p.(body := Some(b), bodyText := if b.finished then b.content else p.bodyText), false)
    decreases |s|
  {
    if s != [] {
      var s' := s[..|s| - 1];
      BodyFollowsChunks(p, s');
      var b' := ChunkFeed(p.body.value, s');
      ChunkFeedOk(p.body.value, s');
      if b'.finished {
        FinishedStays(b', [s[|s| - 1]]);
      }
    }
  }

  /** Once the body has finished, further characters change nothing. */
  lemma AfterFinishNothingChanges(p: Response, s: string)
    requires p.state == WaitingBody && BodyInSync(p) && p.body.value.finished
    ensures ReceiveAll(p, s) == Received(p, false)
  {
    BodyFollowsChunks(p, s);
    FinishedStays(p.body.value, s);
  }

  /** The status line and its `\r\n`. */
  lemma StatusLineCRLF(status: string)
    requires '\n' !in status
    ensures ReceiveAll(NewResponse, status + "\r\n") ==
      Received(NewResponse.(statusLine := WithoutCR(status), state := WaitingHeaderName), false)
  {
    var line := status + "\r";
    assert status + "\r\n" == line + "\n";
    StatusLineEnds(NewResponse, line);
    WithoutCRSnoc(status, '\r');
  }

  /** A header line as a server sends it: `name: value\r\n`. */
  function HeaderLine(name: string, value: string): string
  {
    name + ": " + value + "\r\n"
  }

  /** A header line ending in `\r\n`, with a value free of `\r`, stores exactly that value under the name. */
  lemma HeaderLineCRLF(q: Response, name: string, value: string)
    requires q.state == WaitingHeaderName && ':' !in name && '\n' !in value && '\r' !in value
    ensures ReceiveAll(q, HeaderLine(name, value)) ==
      Received(q.(headers := q.headers[q.headerName + name := q.headerValue + value],
                  headerName := "", headerValue := "", state := WaitingStatusBlockEnd), false)
  {
    assert HeaderLine(name, value) == name + ": " + (value + "\r") + "\n";
    HeaderLineRead(q, name, value + "\r");
    WithoutCRSnoc(value, '\r');
    WithoutCRNone(value);
    assert WithoutCR(value + "\r") == value;
  }

  /** The status line and one `Transfer-Encoding: chunked` header line. */
  lemma ChunkedHead(status: string)
    requires '\n' !in status
    ensures ReceiveAll(NewResponse, status + "\r\n" + HeaderLine("Transfer-Encoding", "chunked")) ==
      Received(NewResponse.(statusLine := WithoutCR(status), headers := map["Transfer-Encoding" := "chunked"],
                            state := WaitingStatusBlockEnd), false)
  {
    StatusLineCRLF(status);
    var q := NewResponse.(statusLine := WithoutCR(status), state := WaitingHeaderName);
    ReceiveAllAppend(NewResponse, status + "\r\n", HeaderLine("Transfer-Encoding", "chunked"));
    HeaderLineCRLF(q, "Transfer-Encoding", "chunked");
    assert q.headerName + "Transfer-Encoding" == "Transfer-Encoding";
    assert q.headerValue + "chunked" == "chunked";
  }

  /** The blank line after the headers, with `Transfer-Encoding: chunked` recorded. */
  lemma BlankLineChunked(q: Response)
    requires q.state == WaitingStatusBlockEnd && IsChunked(q.headers)
    ensures ReceiveAll(q, "\r\n") == Received(q.(body := Some(NewChunked), state := WaitingBody), false)
  {
    assert "\r\n"[..1] == "\r" && "\r"[..0] == "";
  }

  /**
   * A whole chunked response: a status line, the header
   * `Transfer-Encoding: chunked`, the blank line, a size line and that
   * many characters. Nothing throws, the status line and the header are
   * recorded, and the body is exactly those characters.
   */
  lemma ChunkedResponse(status: string, ds: string, body: string)
    requires '\n' !in status && AllHex(ds) && HexValue(ds) == |body| >= 1
    ensures var r := ReceiveAll(NewResponse, status + "\r\n" + HeaderLine("Transfer-Encoding", "chunked") + "\r\n" + ds + "\r\n" + body);
      !r.thrown && r.state.statusLine == WithoutCR(status) &&
      r.state.headers == map["Transfer-Encoding" := "chunked"] &&
      r.state.bodyText == body && r.state.body.Some? && r.state.body.value.finished
  {
    var head := status + "\r\n" + HeaderLine("Transfer-Encoding", "chunked");
    var chunk := ds + "\r\n" + body;
    assert head + "\r\n" + ds + "\r\n" + body == (head + "\r\n") + chunk;
    ChunkedHead(status);
    var q := NewResponse.(statusLine := WithoutCR(status), headers := map["Transfer-Encoding" := "chunked"],
                          state := WaitingStatusBlockEnd);
    ReceiveAllAppend(NewResponse, head, "\r\n");
    BlankLineChunked(q);
    var w := q.(body := Some(NewChunked), state := WaitingBody);
    ReceiveAllAppend(NewResponse, head + "\r\n", chunk);
    BodyFollowsChunks(w, chunk);
    FirstChunk(ds, body);
  }

  // ---------------------------------------------------------------------
  // The request body.
  // ---------------------------------------------------------------------

  const FormType := "application/x-www-form-urlencoded"
  const JsonType := "application/json"

  /** `headers['Content-Type']` when it is truthy (a non-empty string), the form type otherwise. */
  function ContentType(headers: map<string, string>): string
  {
    if "Content-Type" in headers && headers["Content-Type"] != "" then headers["Content-Type"] else FormType
  }

  /** The headers after the constructor: a falsy `Content-Type` is set to the form type. */
  function WithContentType(headers: map<string, string>): map<string, string>
  {
    if "Content-Type" in headers && headers["Content-Type"] != "" then headers else headers["Content-Type" := FormType]
  }

  /** `key=encode(value)` for each entry of the body. */
  function Pairs(body: seq<(string, string)>, encode: string -> string): (r: seq<string>)
    ensures |r| == |body|
  {
    seq(|body|, i requires 0 <= i < |body| => body[i].0 + "=" + encode(body[i].1))
  }

  /** The form-urlencoded body: the pairs joined by `&`, in key order. */
  function UrlEncoded(body: seq<(string, string)>, encode: string -> string): string
  {
    Join(Pairs(body, encode), '&')
  }

  /**
   * `bodyText` as the constructor sets it: `JSON.stringify(body)` for JSON,
   * the form encoding for the form type, and `undefined` (`None`) for any
   * other content type.
   */
  function EncodeBody(contentType: string, body: seq<(string, string)>, encode: string -> string,
                      stringify: seq<(string, string)> -> string): Option<string>
  {
    if contentType == JsonType then Some(stringify(body))
    else if contentType == FormType then Some(UrlEncoded(body, encode))
    else None
  }

  /** The options object of the constructor (`verb` is its `method`); a missing option is `None`. */
  datatype RequestOptions = RequestOptions(
    verb: Option<string>, path: Option<string>, host: Option<string>, port: Option<int>,
    body: Option<seq<(string, string)>>, headers: Option<map<string, string>>)

  function OrElse<T>(o: Option<T>, d: T): T
  {
    if o.Some? then o.value else d
  }

  class HttpRequest {
    const host: Option<string>
    const path: string
    const port: int
    /** The body object's entries, in `Object.keys` order. */
    const body: seq<(string, string)>
    /** `this.method`. */
    const verb: string
    var headers: map<string, string>
    var bodyText: Option<string>

    /**
     * `new HttpRequest(options)`. `encodeURIComponent` and `JSON.stringify`
     * are the parameters `encode` and `stringify`.
     */
    constructor (options: RequestOptions, encode: string -> string, stringify: seq<(string, string)> -> string)
      ensures verb == OrElse(options.verb, "GET") && path == OrElse(options.path, "/")
      ensures host == options.host && port == OrElse(options.port, 80) && body == OrElse(options.body, [])
      ensures headers == WithContentType(OrElse(options.headers, map[]))
      ensures bodyText == EncodeBody(ContentType(OrElse(options.headers, map[])), body, encode, stringify)
    {
      var b := OrElse(options.body, []);
      var h := OrElse(options.headers, map[]);
      var contentType: string;
      if "Content-Type" in h && h["Content-Type"] != "" {
        contentType := h["Content-Type"];
      } else {
        h := h["Content-Type" := FormType];
        contentType := FormType;
      }
      var text: Option<string>;
      if contentType == JsonType {
        text := Some(stringify(b));
      } else if contentType == FormType {
        text := Some(UrlEncoded(b, encode));
      } else {
        text := None;
      }
      host := options.host;
      path := OrElse(options.path, "/");
      port := OrElse(options.port, 80);
      body := b;
      verb := OrElse(options.verb, "GET");
      headers := h;
      bodyText := text;
    }
  }

  /**
   * After the constructor `Content-Type` is always set, to the content type
   * the body was encoded for; a missing or empty one becomes the form type
   * and no other header changes.
   */
  lemma ContentTypeSet(headers: map<string, string>)
    ensures var h := WithContentType(headers);
      "Content-Type" in h && h["Content-Type"] == ContentType(headers) && h["Content-Type"] != ""
    ensures !("Content-Type" in headers && headers["Content-Type"] != "") ==> ContentType(headers) == FormType
    ensures forall k :: k in headers && k != "Content-Type" ==> k in WithContentType(headers) && WithContentType(headers)[k] == headers[k]
    ensures forall k :: k in WithContentType(headers) ==> k in headers || k == "Content-Type"
  {
  }

  /** Splitting `Join(parts, sep)` at `sep` gives the parts back when none of them holds `sep`. */
  lemma {:induction false} SplitJoin(parts: seq<string>, sep: char)
    requires |parts| >= 1 && forall i :: 0 <= i < |parts| ==> sep !in parts[i]
    ensures Split(Join(parts, sep), sep) == parts
    decreases |parts|
  {
    if |parts| == 1 {
      SplitNoSeparator(parts[0], sep);
    } else {
      SplitJoin(parts[1..], sep);
      SplitSeparated(parts[0], Join(parts[1..], sep), sep);
      assert parts == [parts[0]] + parts[1..];
    }
  }

  /** Splitting `a + [sep] + b` with no `sep` in `a` gives `a`, then the pieces of `b`. */
  lemma {:induction false} SplitSeparated(a: string, b: string, sep: char)
    requires sep !in a
    ensures Split(a + [sep] + b, sep) == [a] + Split(b, sep)
    decreases |a|
  {
    if a == [] {
      assert a + [sep] + b == [sep] + b;
      assert ([sep] + b)[1..] == b;
    } else {
      assert sep !in a[1..];
      SplitSeparated(a[1..], b, sep);
      assert (a + [sep] + b)[1..] == a[1..] + [sep] + b;
      assert [a[0]] + a[1..] == a;
    }
  }

  /**
   * The form body splits at `&` back into its `key=encode(value)` pairs,
   * one per entry in key order, provided no key contains `&` and `encode`
   * (`encodeURIComponent`, which escapes `&`) never produces one; the text
   * before the first `=` of each pair is its key when the key has no `=`.
   */
  lemma UrlEncodedPairs(body: seq<(string, string)>, encode: string -> string)
    requires |body| >= 1
    requires forall i :: 0 <= i < |body| ==> '&' !in body[i].0 && '&' !in encode(body[i].1)
    ensures var parts := Split(UrlEncoded(body, encode), '&');
      |parts| == |body| &&
      forall i :: 0 <= i < |body| ==> parts[i] == body[i].0 + "=" + encode(body[i].1)
    ensures forall i :: 0 <= i < |body| && '=' !in body[i].0 ==>
      Split(body[i].0 + "=" + encode(body[i].1), '=')[0] == body[i].0
  {
    var parts := Pairs(body, encode);
    forall i | 0 <= i < |parts|
      ensures '&' !in parts[i]
    {
      assert parts[i] == body[i].0 + "=" + encode(body[i].1);
    }
    SplitJoin(parts, '&');
    forall i | 0 <= i < |body| && '=' !in body[i].0
      ensures Split(body[i].0 + "=" + encode(body[i].1), '=')[0] == body[i].0
    {
      SplitSeparated(body[i].0, encode(body[i].1), '=');
    }
  }
}
