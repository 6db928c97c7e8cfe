/**
 LSP base protocol framing (Language Server Protocol 3.17, "Base Protocol"): the
 frame writer, the header parser and the read/dispatch loop. JSON itself is a
 parameter: any body is either parsed to a message or rejected.
 */
module LspFraming {
  import opened Text

  // ----------------------------------------------------------------- writing

  const CONTENT_LENGTH: string := "Content-Length"

  /** WriteMessage, given the marshalled body. */
  function Frame(body: string): string {
    CONTENT_LENGTH + ": " + Itoa(|body|) + "\r\n\r\n" + body
  }

  type Framer = string -> string

  function FramesWith(frame: Framer, bodies: seq<string>): string {
    if |bodies| == 0 then "" else frame(bodies[0]) + FramesWith(frame, bodies[1..])
  }

  function Frames(bodies: seq<string>): string {
    FramesWith(Frame, bodies)
  }

  // ----------------------------------------------------------------- reading

  datatype ReadError = EndOfInput | Malformed

  datatype Line = Line(text: string, rest: string) | NoLine

  /** bufio.Reader.ReadString('\n'), then TrimRight "\r\n". */
  function ReadLine(input: string): Line {
    var i := IndexByte(input, '\n');
    if i < 0 then NoLine else Line(TrimRightCRLF(input[..i + 1]), input[i + 1..])
  }

  function TrimRightCRLF(s: string): string {
    if |s| > 0 && (s[|s| - 1] == '\r' || s[|s| - 1] == '\n') then TrimRightCRLF(s[..|s| - 1]) else s
  }

  predicate EqualFold(a: string, b: string) {
    |a| == |b| && forall i :: 0 <= i < |a| ==> ToLower(a[i]) == ToLower(b[i])
  }

  datatype Header = Header(length: nat, rest: string) | HeaderError(error: ReadError)

  /** What one header line says. */
  datatype LineKind = Blank | Bad | Length(n: int) | Other

  type Classifier = string -> LineKind

  function HeaderLine(line: string): LineKind {
    if line == "" then Blank
    else
      var colon := IndexByte(line, ':');
      if colon < 0 then Bad
      else if EqualFold(TrimSpace(line[..colon]), "content-length") then
        match Atoi(TrimSpace(line[colon + 1..]))
        case None => Bad
        case Some(n) => Length(n)
      else Other
  }

  /** readHeader from the given length so far (-1: none yet). */
  function ParseHeader(kind: Classifier, input: string, length: int): Header
    decreases |input|
  {
    match ReadLine(input)
    case NoLine => HeaderError(EndOfInput)
    case Line(line, rest) =>
      match kind(line)
      case Blank => if length < 0 then HeaderError(Malformed) else Header(length, rest)
      case Bad => HeaderError(Malformed)
      case Length(n) => ParseHeader(kind, rest, n)
      case Other => ParseHeader(kind, rest, length)
  }

  /** The loop over header lines. */
  method ScanHeader(kind: Classifier, input: string) returns (h: Header)
    ensures h == ParseHeader(kind, input, -1)
  {
    var length, rest := -1, input;
    while true
      invariant ParseHeader(kind, input, -1) == ParseHeader(kind, rest, length)
      decreases |rest|
    {
      var next := ReadLine(rest);
      if next.NoLine? {
        return HeaderError(EndOfInput);
      }
      rest := next.rest;
      match kind(next.text)
      case Blank => break;
      case Bad => return HeaderError(Malformed);
      case Length(n) => length := n;
      case Other =>
    }
    if length < 0 {
      return HeaderError(Malformed);
    }
    return Header(length, rest);
  }

  /** readHeader. */
  method ReadHeader(input: string) returns (h: Header)
    ensures h == ParseHeader(HeaderLine, input, -1)
  {
    h := ScanHeader(HeaderLine, input);
  }

  /** ReadMessage: what it leaves unread, and a body, or an error that ends the session. */
  datatype Read = Body(body: string, rest: string) | ReadFailed(error: ReadError)

  function ReadFrame(input: string): Read {
    match ParseHeader(HeaderLine, input, -1)
    case HeaderError(e) => ReadFailed(e)
    case Header(length, rest) =>
      if |rest| < length then ReadFailed(if |rest| == 0 then EndOfInput else Malformed)
      else Body(rest[..length], rest[length..])
  }

  // -------------------------------------------------------- one frame comes back

  lemma FoldedName()
    ensures EqualFold(TrimSpace(CONTENT_LENGTH), "content-length")
    ensures ':' !in CONTENT_LENGTH && '\n' !in CONTENT_LENGTH
  {
  }

  lemma TrimmedLine(line: string)
    requires |line| > 0 ==> line[|line| - 1] != '\r' && line[|line| - 1] != '\n'
    ensures TrimRightCRLF(line + "\r\n") == line
  {
    var s, t := line + "\r\n", line + "\r";
    assert s[..|s| - 1] == t && t[..|t| - 1] == line;
    assert TrimRightCRLF(t) == TrimRightCRLF(line) == line;
    assert TrimRightCRLF(s) == TrimRightCRLF(t);
  }

  lemma LineComesBack(line: string, rest: string)
    requires '\n' !in line && '\r' !in line
    ensures ReadLine(line + "\r\n" + rest) == Line(line, rest)
  {
    var input := line + "\r\n" + rest;
    var upto := line + "\r";
    assert input == upto + ['\n'] + rest;
    IndexByteOf(upto, '\n', rest);
    assert input[..|upto| + 1] == line + "\r\n";
    assert input[|upto| + 1..] == rest;
    TrimmedLine(line);
  }

  function LengthLine(n: nat): string {
    CONTENT_LENGTH + ": " + Itoa(n)
  }

  lemma LengthLineShape(n: nat)
    ensures '\n' !in LengthLine(n) && '\r' !in LengthLine(n) && LengthLine(n) != ""
    ensures IndexByte(LengthLine(n), ':') == |CONTENT_LENGTH|
    ensures LengthLine(n)[..|CONTENT_LENGTH|] == CONTENT_LENGTH
    ensures LengthLine(n)[|CONTENT_LENGTH| + 1..] == " " + Itoa(n)
  {
    FoldedName();
    ColonLine(CONTENT_LENGTH, Itoa(n));
  }

  lemma ColonLine(name: string, value: string)
    requires ':' !in name && '\n' !in name && '\r' !in name && '\n' !in value && '\r' !in value
    ensures var line := name + ": " + value;
      && '\n' !in line && '\r' !in line && IndexByte(line, ':') == |name|
      && line[..|name|] == name && line[|name| + 1..] == " " + value
  {
    var line := name + ": " + value;
    assert line == name + [':'] + (" " + value);
    IndexByteOf(name, ':', " " + value);
  }

  lemma LengthValueParses(n: nat)
    requires n <= MAX_INT
    ensures Atoi(TrimSpace(" " + Itoa(n))) == Some(n)
  {
    var value := " " + Itoa(n);
    assert value[1..] == Itoa(n);
    TrimSpaceTight(Itoa(n));
    AtoiItoa(n);
  }

  lemma LengthLineSays(n: nat)
    requires n <= MAX_INT
    ensures HeaderLine(LengthLine(n)) == Length(n)
  {
    LengthLineShape(n);
    LengthValueParses(n);
    FoldedName();
  }

  lemma BlankEndsHeader(kind: Classifier, n: nat, rest: string)
    requires kind("") == Blank
    ensures ParseHeader(kind, "\r\n" + rest, n) == Header(n, rest)
  {
    assert "\r\n" + rest == "" + "\r\n" + rest;
    LineComesBack("", rest);
  }

  /** A header of one length line and a blank one. */
  lemma HeaderComesBack(kind: Classifier, line: string, n: nat, rest: string)
    requires '\n' !in line && '\r' !in line && kind(line) == Length(n) && kind("") == Blank
    ensures ParseHeader(kind, line + "\r\n" + ("\r\n" + rest), -1) == Header(n, rest)
  {
    LineComesBack(line, "\r\n" + rest);
    BlankEndsHeader(kind, n, rest);
  }

  /** ReadMessage undoes WriteMessage, byte for byte, whatever follows. */
  lemma FrameComesBack(body: string, rest: string)
    requires |body| <= MAX_INT
    ensures ReadFrame(Frame(body) + rest) == Body(body, rest)
  {
    var line, n := LengthLine(|body|), |body|;
    LengthLineShape(n);
    LengthLineSays(n);
    assert Frame(body) + rest == line + "\r\n" + ("\r\n" + (body + rest));
    HeaderComesBack(HeaderLine, line, n, body + rest);
    assert (body + rest)[..n] == body && (body + rest)[n..] == rest;
  }

  // ------------------------------------------------------- headers of any lines

  /** Header lines, each with its line end. */
  function HeaderText(lines: seq<string>): string {
    if |lines| == 0 then "" else lines[0] + "\r\n" + HeaderText(lines[1..])
  }

  predicate PlainLine(line: string) {
    '\n' !in line && '\r' !in line
  }

  /** What the lines say the length is, when `length` was said before them; nothing when one is bad. */
  function LengthAfter(kind: Classifier, lines: seq<string>, length: int): Option<int> {
    if |lines| == 0 then Some(length)
    else match kind(lines[0])
      case Length(n) => LengthAfter(kind, lines[1..], n)
      case Other => LengthAfter(kind, lines[1..], length)
      case _ => None
  }

  lemma FirstLineRead(line: string, lines: seq<string>, rest: string)
    requires PlainLine(line) && |lines| > 0 && lines[0] == line
    ensures ReadLine(HeaderText(lines) + ("\r\n" + rest)) == Line(line, HeaderText(lines[1..]) + ("\r\n" + rest))
  {
    var after := HeaderText(lines[1..]) + ("\r\n" + rest);
    assert HeaderText(lines) + ("\r\n" + rest) == line + "\r\n" + after;
    LineComesBack(line, after);
  }

  /** A header of any lines: an error when one is bad or none has said a length, else the last length said. */
  lemma {:induction false} HeaderReads(kind: Classifier, lines: seq<string>, rest: string, length: int)
    requires kind("") == Blank && forall i :: 0 <= i < |lines| ==> PlainLine(lines[i]) && kind(lines[i]) != Blank
    ensures ParseHeader(kind, HeaderText(lines) + ("\r\n" + rest), length)
         == match LengthAfter(kind, lines, length)
            case None => HeaderError(Malformed)
            case Some(n) => if n < 0 then HeaderError(Malformed) else Header(n, rest)
    decreases |lines|
  {
    if |lines| == 0 {
      assert "" + ("\r\n" + rest) == "" + "\r\n" + rest;
      LineComesBack("", rest);
    } else {
      FirstLineRead(lines[0], lines, rest);
      match kind(lines[0])
      case Length(n) => HeaderReads(kind, lines[1..], rest, n);
      case Other => HeaderReads(kind, lines[1..], rest, length);
      case _ =>
    }
  }

  /** The length said once the first lines are read. */
  lemma {:induction false} LengthStays(kind: Classifier, before: seq<string>, more: seq<string>, length: int)
    returns (n: int)
    requires forall i :: 0 <= i < |before| ==> kind(before[i]).Length? || kind(before[i]).Other?
    ensures LengthAfter(kind, before + more, length) == LengthAfter(kind, more, n)
    ensures (forall i :: 0 <= i < |before| ==> kind(before[i]).Other?) ==> n == length
    decreases |before|
  {
    if |before| == 0 {
      assert before + more == more;
      n := length;
    } else {
      assert (before + more)[1..] == before[1..] + more;
      n := LengthStays(kind, before[1..], more, if kind(before[0]).Length? then kind(before[0]).n else length);
    }
  }

  /** The last length line decides, whatever harmless lines and earlier lengths are around it. */
  lemma LastLengthWins(kind: Classifier, before: seq<string>, line: string, after: seq<string>, length: int)
    requires forall i :: 0 <= i < |before| ==> kind(before[i]).Length? || kind(before[i]).Other?
    requires kind(line).Length? && forall i :: 0 <= i < |after| ==> kind(after[i]).Other?
    ensures LengthAfter(kind, before + [line] + after, length) == Some(kind(line).n)
  {
    var n := LengthStays(kind, before, [line] + after, length);
    assert before + [line] + after == before + ([line] + after);
    assert ([line] + after)[1..] == after;
    n := LengthStays(kind, after, [], kind(line).n);
    assert after + [] == after;
  }

  /** What a header line says, for any line with a name, a colon and a value. */
  lemma FieldLine(name: string, value: string)
    requires ':' !in name
    ensures HeaderLine(name + [':'] + value)
         == if EqualFold(TrimSpace(name), "content-length") then
              (match Atoi(TrimSpace(value)) case None => Bad case Some(n) => Length(n))
            else Other
  {
    var line := name + [':'] + value;
    IndexByteOf(name, ':', value);
    assert line[..|name|] == name && line[|name| + 1..] == value;
  }

  lemma ContentTypeIsOther(value: string)
    ensures HeaderLine("Content-Type" + [':'] + value) == Other
  {
    FieldLine("Content-Type", value);
    TrimSpaceTight("Content-Type");
  }

  /** Lines that may stand beside the length line: no line ends in them, and another name. */
  predicate OtherLines(lines: seq<string>) {
    forall i :: 0 <= i < |lines| ==> PlainLine(lines[i]) && HeaderLine(lines[i]) == Other
  }

  lemma HeaderWithOthers(before: seq<string>, after: seq<string>, n: nat, rest: string)
    requires OtherLines(before) && OtherLines(after) && n <= MAX_INT
    ensures ParseHeader(HeaderLine, HeaderText(before + [LengthLine(n)] + after) + ("\r\n" + rest), -1)
         == Header(n, rest)
  {
    var lines := before + [LengthLine(n)] + after;
    LengthLineShape(n);
    LengthLineSays(n);
    LastLengthWins(HeaderLine, before, LengthLine(n), after, -1);
    forall i | 0 <= i < |lines|
      ensures PlainLine(lines[i]) && HeaderLine(lines[i]) != Blank
    {
      if i < |before| {
        assert lines[i] == before[i];
      } else if i > |before| {
        assert lines[i] == after[i - |before| - 1];
      }
    }
    HeaderReads(HeaderLine, lines, rest, -1);
  }

  /** A frame with other header lines before and behind its length line is read like one without. */
  lemma FrameWithOthers(before: seq<string>, after: seq<string>, body: string, rest: string)
    requires OtherLines(before) && OtherLines(after) && |body| <= MAX_INT
    ensures ReadFrame(HeaderText(before + [LengthLine(|body|)] + after) + ("\r\n" + (body + rest))) == Body(body, rest)
  {
    HeaderWithOthers(before, after, |body|, body + rest);
    assert (body + rest)[..|body|] == body && (body + rest)[|body|..] == rest;
  }

  /** Without a length line no frame is read. */
  lemma FrameWithoutLength(lines: seq<string>, rest: string)
    requires OtherLines(lines)
    ensures ReadFrame(HeaderText(lines) + ("\r\n" + rest)) == ReadFailed(Malformed)
  {
    var n := LengthStays(HeaderLine, lines, [], -1);
    assert lines + [] == lines;
    HeaderReads(HeaderLine, lines, rest, -1);
  }

  lemma {:induction false} HeaderConsumes(kind: Classifier, input: string, length: int)
    ensures var h := ParseHeader(kind, input, length); h.Header? ==> |h.rest| < |input|
    decreases |input|
  {
    match ReadLine(input)
    case NoLine =>
    case Line(line, rest) =>
      match kind(line)
      case Length(n) => HeaderConsumes(kind, rest, n);
      case Other => HeaderConsumes(kind, rest, length);
      case _ =>
  }

  // ---------------------------------------------------------- input that is cut off

  function HeaderOf(n: nat): string {
    LengthLine(n) + "\r\n" + "\r\n"
  }

  lemma FrameIsHeaderAndBody(body: string)
    ensures Frame(body) == HeaderOf(|body|) + body
  {
  }

  lemma NoLineIn(s: string)
    requires '\n' !in s
    ensures ReadLine(s) == NoLine
  {
  }

  /** A header cut off anywhere says that the input has ended. */
  lemma CutHeader(n: nat, cut: nat)
    requires n <= MAX_INT && cut < |HeaderOf(n)|
    ensures ParseHeader(HeaderLine, HeaderOf(n)[..cut], -1) == HeaderError(EndOfInput)
  {
    var line := LengthLine(n);
    LengthLineShape(n);
    LengthLineSays(n);
    var seen := HeaderOf(n)[..cut];
    if cut < |line| + 2 {
      NoLineIn(seen);
    } else {
      var rest := ("\r\n")[..cut - |line| - 2];
      assert seen == line + "\r\n" + rest;
      LineComesBack(line, rest);
      NoLineIn(rest);
    }
  }

  /** A frame cut off inside its body is an error; cut off before the body it looks like the end of the input. */
  lemma CutFrame(body: string, cut: nat)
    requires |body| <= MAX_INT && cut < |Frame(body)|
    ensures ReadFrame(Frame(body)[..cut])
         == ReadFailed(if cut <= |HeaderOf(|body|)| then EndOfInput else Malformed)
  {
    var n, h := |body|, HeaderOf(|body|);
    FrameIsHeaderAndBody(body);
    if cut < |h| {
      assert Frame(body)[..cut] == h[..cut];
      CutHeader(n, cut);
    } else {
      var part := body[..cut - |h|];
      assert Frame(body)[..cut] == LengthLine(n) + "\r\n" + ("\r\n" + part);
      LengthLineShape(n);
      LengthLineSays(n);
      HeaderComesBack(HeaderLine, LengthLine(n), n, part);
    }
  }

  type Reader = string -> Read

  /** Reading a message always consumes something. */
  ghost predicate Consumes(read: Reader) {
    forall input :: read(input).Body? ==> |read(input).rest| < |input|
  }

  lemma FramesConsume()
    ensures Consumes(ReadFrame)
  {
    forall input
      ensures ReadFrame(input).Body? ==> |ReadFrame(input).rest| < |input|
    {
      HeaderConsumes(HeaderLine, input, -1);
    }
  }

  /** All messages a reader finds, and the error that ends the input. */
  function BodiesWith(read: Reader, input: string): (seq<string>, ReadError)
    decreases |input|
  {
    match read(input)
    case ReadFailed(e) => ([], e)
    case Body(body, rest) =>
      if |rest| >= |input| then ([], EndOfInput)
      else
        var more := BodiesWith(read, rest);
        ([body] + more.0, more.1)
  }

  /** All frames of an input, and the error that ends it. */
  function ReadBodies(input: string): (seq<string>, ReadError) {
    BodiesWith(ReadFrame, input)
  }

  lemma BodiesNext(read: Reader, input: string, body: string, rest: string)
    requires read(input) == Body(body, rest) && |rest| < |input|
    ensures BodiesWith(read, input) == ([body] + BodiesWith(read, rest).0, BodiesWith(read, rest).1)
  {
  }

  lemma NothingToRead()
    ensures ReadFrame("") == ReadFailed(EndOfInput)
  {
    assert ReadLine("") == NoLine;
  }

  /** The reader undoes the framer, whatever follows. */
  ghost predicate Undoes(read: Reader, frame: Framer) {
    forall body, rest :: UndoesAt(read, frame, body, rest)
  }

  ghost predicate UndoesAt(read: Reader, frame: Framer, body: string, rest: string) {
    |body| <= MAX_INT ==> |frame(body)| > 0 && read(frame(body) + rest) == Body(body, rest)
  }

  lemma FramesUndone()
    ensures Undoes(ReadFrame, Frame)
  {
    forall body, rest
      ensures UndoesAt(ReadFrame, Frame, body, rest)
    {
      if |body| <= MAX_INT {
        FrameComesBack(body, rest);
      }
    }
  }

  /** All bodies come back, and then whatever is read from what follows them. */
  lemma {:induction false} FramesThen(read: Reader, frame: Framer, bodies: seq<string>, tail: string)
    requires Undoes(read, frame) && forall i :: 0 <= i < |bodies| ==> |bodies[i]| <= MAX_INT
    ensures BodiesWith(read, FramesWith(frame, bodies) + tail)
         == (bodies + BodiesWith(read, tail).0, BodiesWith(read, tail).1)
    decreases |bodies|
  {
    if |bodies| == 0 {
      assert "" + tail == tail && [] + BodiesWith(read, tail).0 == BodiesWith(read, tail).0;
    } else {
      var rest := FramesWith(frame, bodies[1..]) + tail;
      FramesThen(read, frame, bodies[1..], tail);
      assert UndoesAt(read, frame, bodies[0], rest);
      assert FramesWith(frame, bodies) + tail == frame(bodies[0]) + rest;
      BodiesNext(read, frame(bodies[0]) + rest, bodies[0], rest);
      Regrouped(bodies, BodiesWith(read, tail).0);
    }
  }

  lemma Regrouped(bodies: seq<string>, more: seq<string>)
    requires |bodies| > 0
    ensures [bodies[0]] + (bodies[1..] + more) == bodies + more
  {
  }

  /** Reading all frames gives back all bodies, with nothing left over. */
  lemma FramesComeBack(bodies: seq<string>)
    requires forall i :: 0 <= i < |bodies| ==> |bodies[i]| <= MAX_INT
    ensures ReadBodies(Frames(bodies)) == (bodies, EndOfInput)
  {
    FramesUndone();
    FramesThen(ReadFrame, Frame, bodies, "");
    NothingToRead();
    assert Frames(bodies) + "" == Frames(bodies) && bodies + [] == bodies;
  }

  // ---------------------------------------------------------------- the server

  /** What Serve needs of a decoded message. */
  datatype Codec<!M> = Codec(parse: string -> Option<M>, isExit: M -> bool)

  /** The messages dispatched, and whether the loop ended without an error. */
  datatype Session<M> = Session(dispatched: seq<M>, clean: bool)

  /** The messages among some bodies, up to and including the first exit. */
  function Messages<M>(c: Codec<M>, bodies: seq<string>): seq<M> {
    if |bodies| == 0 then []
    else match c.parse(bodies[0])
      case None => Messages(c, bodies[1..])
      case Some(m) => if c.isExit(m) then [m] else [m] + Messages(c, bodies[1..])
  }

  predicate Exits<M>(c: Codec<M>, bodies: seq<string>) {
    exists i :: 0 <= i < |bodies| && c.parse(bodies[i]).Some? && c.isExit(c.parse(bodies[i]).value)
  }

  /** Serve, on input that has been read as these bodies followed by that error. */
  function Served<M>(c: Codec<M>, bodies: seq<string>, e: ReadError): Session<M> {
    Session(Messages(c, bodies), Exits(c, bodies) || e == EndOfInput)
  }

  lemma ServedNext<M>(c: Codec<M>, bodies: seq<string>, e: ReadError)
    requires |bodies| > 0
    ensures var m := c.parse(bodies[0]); var rest := Served(c, bodies[1..], e);
      Served(c, bodies, e) ==
        if m.Some? && c.isExit(m.value) then Session([m.value], true)
        else Session((if m.Some? then [m.value] else []) + rest.dispatched, rest.clean)
  {
  }

  /** The read/dispatch loop as a value, for any reader. */
  function ServeWith<M>(c: Codec<M>, read: Reader, input: string): Session<M>
    decreases |input|
  {
    match read(input)
    case ReadFailed(e) => Session([], e == EndOfInput)
    case Body(body, rest) =>
      if |rest| >= |input| then Session([], true)
      else
        var m := c.parse(body);
        if m.Some? && c.isExit(m.value) then Session([m.value], true)
        else
          var more := ServeWith(c, read, rest);
          Session((if m.Some? then [m.value] else []) + more.dispatched, more.clean)
  }

  function ServeFrom<M>(c: Codec<M>, input: string): Session<M> {
    ServeWith(c, ReadFrame, input)
  }

  /** What has been dispatched, and what is still to be read. */
  ghost predicate Serving<M>(c: Codec<M>, read: Reader, input: string, dispatched: seq<M>, rest: string) {
    var whole, more := ServeWith(c, read, input), ServeWith(c, read, rest);
    whole.clean == more.clean && whole.dispatched == dispatched + more.dispatched
  }

  /** A message dispatched, or a body skipped. */
  lemma ServeNext<M>(c: Codec<M>, read: Reader, input: string, dispatched: seq<M>, rest: string)
    requires Consumes(read) && Serving(c, read, input, dispatched, rest)
    requires read(rest).Body? && (var m := c.parse(read(rest).body); m.Some? ==> !c.isExit(m.value))
    ensures var m := c.parse(read(rest).body);
      Serving(c, read, input, dispatched + (if m.Some? then [m.value] else []), read(rest).rest)
  {
    var m, more := c.parse(read(rest).body), ServeWith(c, read, read(rest).rest);
    var one := if m.Some? then [m.value] else [];
    assert dispatched + (one + more.dispatched) == (dispatched + one) + more.dispatched;
  }

  /** An exit message, or a read error. */
  lemma ServeEnd<M>(c: Codec<M>, read: Reader, input: string, dispatched: seq<M>, rest: string)
    requires Consumes(read) && Serving(c, read, input, dispatched, rest)
    ensures read(rest).ReadFailed? ==>
      ServeWith(c, read, input) == Session(dispatched, read(rest).error == EndOfInput)
    ensures read(rest).Body? ==>
      var m := c.parse(read(rest).body);
      m.Some? && c.isExit(m.value) ==> ServeWith(c, read, input) == Session(dispatched + [m.value], true)
  {
    assert dispatched + [] == dispatched;
  }

  /**
   Serve: a frame whose body does not parse is logged and skipped; an exit message or the end of
   input ends the loop cleanly; any other read error ends it with that error.
   */
  method Serve<M>(c: Codec<M>, input: string) returns (s: Session<M>)
    ensures s == ServeFrom(c, input)
  {
    FramesConsume();
    var dispatched, rest := [], input;
    while true
      invariant Serving(c, ReadFrame, input, dispatched, rest)
      decreases |rest|
    {
      var done;
      done, s, dispatched, rest := ServeMessage(c, input, dispatched, rest);
      if done {
        return;
      }
    }
  }

  /** One turn of the loop. */
  method ServeMessage<M>(c: Codec<M>, ghost input: string, dispatched: seq<M>, rest: string)
    returns (done: bool, s: Session<M>, dispatched': seq<M>, rest': string)
    requires Consumes(ReadFrame) && Serving(c, ReadFrame, input, dispatched, rest)
    ensures done ==> s == ServeFrom(c, input)
    ensures !done ==> |rest'| < |rest| && Serving(c, ReadFrame, input, dispatched', rest')
  {
    done, s, dispatched', rest' := true, Session([], false), dispatched, rest;
    ServeEnd(c, ReadFrame, input, dispatched, rest);
    var read := ReadMessage(rest);
    if read.ReadFailed? {
      s := Session(dispatched, read.error == EndOfInput);
      return;
    }
    var m := c.parse(read.body);
    if m.Some? && c.isExit(m.value) {
      s := Session(dispatched + [m.value], true);
      return;
    }
    ServeNext(c, ReadFrame, input, dispatched, rest);
    done := false;
    dispatched' := dispatched + (if m.Some? then [m.value] else []);
    rest' := read.rest;
  }

  method ReadMessage(input: string) returns (r: Read)
    ensures r == ReadFrame(input)
  {
    var h := ReadHeader(input);
    if h.HeaderError? {
      return ReadFailed(h.error);
    }
    if |h.rest| < h.length {
      return ReadFailed(if |h.rest| == 0 then EndOfInput else Malformed);
    }
    return Body(h.rest[..h.length], h.rest[h.length..]);
  }

  lemma {:induction false} ServeWithBodies<M>(c: Codec<M>, read: Reader, input: string)
    requires Consumes(read)
    ensures var (bodies, e) := BodiesWith(read, input); ServeWith(c, read, input) == Served(c, bodies, e)
    decreases |input|
  {
    match read(input)
    case ReadFailed(e) =>
    case Body(body, rest) =>
      ServeWithBodies(c, read, rest);
      BodiesNext(read, input, body, rest);
      var (bodies, e) := BodiesWith(read, input);
      assert bodies[1..] == BodiesWith(read, rest).0;
      ServedNext(c, bodies, e);
  }

  /** The loop dispatches the messages among the bodies it reads, in order, up to the first exit. */
  lemma ServeReadsBodies<M>(c: Codec<M>, input: string)
    ensures ServeFrom(c, input) == Served(c, ReadBodies(input).0, ReadBodies(input).1)
  {
    FramesConsume();
    ServeWithBodies(c, ReadFrame, input);
  }

  lemma CutFramesRead(bodies: seq<string>, last: string, cut: nat)
    requires (forall i :: 0 <= i < |bodies| ==> |bodies[i]| <= MAX_INT) && |last| <= MAX_INT && cut < |Frame(last)|
    ensures ReadBodies(Frames(bodies) + Frame(last)[..cut])
         == (bodies, if cut <= |HeaderOf(|last|)| then EndOfInput else Malformed)
  {
    FramesUndone();
    FramesThen(ReadFrame, Frame, bodies, Frame(last)[..cut]);
    CutFrame(last, cut);
    assert bodies + [] == bodies;
  }

  /**
   A connection lost inside the last frame: every frame before it is dispatched, and the loop ends
   with an error if and only if some of the last body, but not all of it, had come (and no exit before).
   */
  lemma CutSession<M>(c: Codec<M>, bodies: seq<string>, last: string, cut: nat)
    requires (forall i :: 0 <= i < |bodies| ==> |bodies[i]| <= MAX_INT) && |last| <= MAX_INT && cut < |Frame(last)|
    ensures ServeFrom(c, Frames(bodies) + Frame(last)[..cut])
         == Session(Messages(c, bodies), Exits(c, bodies) || cut <= |HeaderOf(|last|)|)
  {
    CutFramesRead(bodies, last, cut);
    ServeReadsBodies(c, Frames(bodies) + Frame(last)[..cut]);
  }

  /** Every later frame stays in step: on any written frames Serve dispatches exactly the parsable ones. */
  lemma ServeStaysInStep<M>(c: Codec<M>, bodies: seq<string>)
    requires forall i :: 0 <= i < |bodies| ==> |bodies[i]| <= MAX_INT
    ensures ServeFrom(c, Frames(bodies)) == Session(Messages(c, bodies), true)
  {
    FramesComeBack(bodies);
    ServeReadsBodies(c, Frames(bodies));
  }
}
